/** Python's `int(s)` for a string `s` in base 10: surrounding whitespace is
    dropped, an optional sign may follow, and the digits may be grouped by
    single underscores (`"1_700_000"`); leading zeros are allowed. A literal
    of more than `MAX_STR_DIGITS` digits is refused, as Python does by default
    since 3.11, 3.10.7, 3.9.14, 3.8.14 and 3.7.14. */
module IntParse {
  import opened Options

  predicate IsDigit(c: char) { '0' <= c <= '9' }

  /** The ASCII characters `int()` strips: space, tab, line feed, vertical
      tab, form feed and carriage return (C's `isspace`). */
  predicate IsSpace(c: char) {
    c == ' ' || '\t' <= c <= '\r'
  }

  /** The default of `sys.get_int_max_str_digits()`: `int()` of a string with
      more digits raises ValueError. */
  const MAX_STR_DIGITS := 4300

  /** The first position at or after `i` that does not hold whitespace, or
      `|s|` when there is none. */
  function FirstNonSpace(s: string, i: nat): (r: nat)
    requires i <= |s|
    ensures i <= r <= |s| && (r < |s| ==> !IsSpace(s[r]))
    ensures forall q :: i <= q < r ==> IsSpace(s[q])
    decreases |s| - i
  {
    if i < |s| && IsSpace(s[i]) then FirstNonSpace(s, i + 1) else i
  }

  /** The end of `s[lo..j]` once its trailing whitespace is dropped. */
  function EndNonSpace(s: string, lo: nat, j: nat): (r: nat)
    requires lo <= j <= |s|
    ensures lo <= r <= j && (lo < r ==> !IsSpace(s[r - 1]))
    ensures forall q :: r <= q < j ==> IsSpace(s[q])
    decreases j
  {
    if lo < j && IsSpace(s[j - 1]) then EndNonSpace(s, lo, j - 1) else j
  }

  /** Where the stripped string starts and ends within `s`. */
  function StripStart(s: string): nat {
    FirstNonSpace(s, 0)
  }

  function StripEnd(s: string): (e: nat)
    ensures StripStart(s) <= e <= |s|
  {
    EndNonSpace(s, StripStart(s), |s|)
  }

  /** `s.strip()` for the whitespace `int()` ignores: what is left neither
      starts nor ends with whitespace. */
  function Strip(s: string): (t: string)
    ensures |t| > 0 ==> !IsSpace(t[0]) && !IsSpace(t[|t| - 1])
  {
    s[StripStart(s)..StripEnd(s)]
  }

  /** Position `i` of `b` holds a digit, or an underscore between two digits. */
  predicate GroupedAt(b: string, i: nat)
    requires i < |b|
  {
    IsDigit(b[i]) || (b[i] == '_' && 0 < i < |b| - 1 && IsDigit(b[i - 1]) && IsDigit(b[i + 1]))
  }

  /** One or more digits, an underscore only between two digits. */
  predicate IsDigitGroups(b: string) {
    |b| > 0 && forall i: nat :: i < |b| ==> GroupedAt(b, i)
  }

  lemma NotDigitGroups(b: string, j: nat)
    requires j < |b| && !IsDigit(b[j]) && b[j] != '_'
    ensures !IsDigitGroups(b)
  {
    assert !GroupedAt(b, j);
  }

  /** The number the digits of `b` spell, underscores ignored. */
  function DigitsValue(b: string): nat
    decreases |b|
  {
    if |b| == 0 then 0
    else if b[|b| - 1] == '_' then DigitsValue(b[..|b| - 1])
    else DigitsValue(b[..|b| - 1]) * 10 + (if IsDigit(b[|b| - 1]) then (b[|b| - 1] - '0') as nat else 0)
  }

  /** The number of digits in `b`; underscores do not count. */
  function DigitCount(b: string): nat
    decreases |b|
  {
    if |b| == 0 then 0
    else DigitCount(b[..|b| - 1]) + (if IsDigit(b[|b| - 1]) then 1 else 0)
  }

  /** A stripped literal: an optional sign, then digit groups within the
      digit limit. It always ends in a digit, and only a minus sign makes it
      negative. */
  function ParseLiteral(t: string): (r: Option<int>)
    ensures r.Some? ==> |t| > 0 && IsDigit(t[|t| - 1])
    ensures r.Some? && r.value < 0 ==> t[0] == '-'
  {
    var signed := |t| > 0 && (t[0] == '-' || t[0] == '+');
    var body := if signed then t[1..] else t;
    if IsDigitGroups(body) && DigitCount(body) <= MAX_STR_DIGITS then
      assert GroupedAt(body, |body| - 1) && body[|body| - 1] == t[|t| - 1];
      var v: int := DigitsValue(body);
      Some(if signed && t[0] == '-' then -v else v)
    else None
  }

  /** `int(s)`: the integer the literal denotes once surrounding whitespace
      is stripped, or None where Python raises ValueError. */
  function Parse(s: string): (r: Option<int>)
    ensures r.Some? ==> |Strip(s)| > 0 && IsDigit(Strip(s)[|Strip(s)| - 1])
    ensures r.Some? && r.value < 0 ==> Strip(s)[0] == '-'
  {
    ParseLiteral(Strip(s))
  }

  function DigitChar(d: nat): (c: char)
    requires d < 10
    ensures IsDigit(c) && (c - '0') as nat == d
  {
    (d + '0' as int) as char
  }

  /** The decimal numeral of `n`, as `str(n)` writes it. */
  function ShowNat(n: nat): (s: string)
    ensures |s| > 0 && forall i :: 0 <= i < |s| ==> IsDigit(s[i])
    decreases n
  {
    if n < 10 then [DigitChar(n)] else ShowNat(n / 10) + [DigitChar(n % 10)]
  }

  function Show(n: int): string {
    if n < 0 then "-" + ShowNat(-n) else ShowNat(n)
  }

  lemma {:induction false} DigitsValueShowNat(n: nat)
    ensures DigitsValue(ShowNat(n)) == n
    decreases n
  {
    var s := ShowNat(n);
    if n >= 10 {
      DigitsValueShowNat(n / 10);
      assert s[..|s| - 1] == ShowNat(n / 10);
    }
  }

  lemma {:induction false} DigitCountAllDigits(b: string)
    requires forall i :: 0 <= i < |b| ==> IsDigit(b[i])
    ensures DigitCount(b) == |b|
    decreases |b|
  {
    if |b| > 0 {
      DigitCountAllDigits(b[..|b| - 1]);
    }
  }

  lemma StripUnchanged(s: string)
    requires |s| > 0 && !IsSpace(s[0]) && !IsSpace(s[|s| - 1])
    ensures Strip(s) == s
  {
    assert StripStart(s) == 0;
    assert StripEnd(s) == |s|;
    assert s[0..|s|] == s;
  }

  /** `int(str(n)) == n` for every integer whose numeral is within the digit
      limit (beyond it `str(n)` raises as well). */
  lemma {:induction false} ParseShow(n: int)
    requires |ShowNat(if n < 0 then -n else n)| <= MAX_STR_DIGITS
    ensures Parse(Show(n)) == Some(n)
  {
    var s := Show(n);
    var m := if n < 0 then -n else n;
    var digits := ShowNat(m);
    DigitsValueShowNat(m);
    DigitCountAllDigits(digits);
    assert IsDigitGroups(digits);
    StripUnchanged(s);
    if n < 0 {
      assert s[1..] == digits;
    } else {
      assert s == digits && !(s[0] == '-' || s[0] == '+');
    }
  }

  /** Stripping keeps every character that is not whitespace, in place. */
  lemma StripKeeps(s: string, i: nat)
    requires i < |s| && !IsSpace(s[i])
    ensures StripStart(s) <= i < StripEnd(s)
    ensures Strip(s)[i - StripStart(s)] == s[i]
  {
  }

  /** Any character besides digits, underscores, signs and whitespace, a
      decimal point for one, makes `int(s)` raise. */
  lemma ParseRejectsForeignChar(s: string, i: nat)
    requires i < |s|
    requires !IsDigit(s[i]) && s[i] != '_' && s[i] != '-' && s[i] != '+' && !IsSpace(s[i])
    ensures Parse(s) == None
  {
    StripKeeps(s, i);
    var t := Strip(s);
    var j := i - StripStart(s);
    if |t| > 0 && (t[0] == '-' || t[0] == '+') {
      assert j > 0;
      NotDigitGroups(t[1..], j - 1);
    } else {
      NotDigitGroups(t, j);
    }
  }

  predicate AllSpace(w: string) {
    forall i :: 0 <= i < |w| ==> IsSpace(w[i])
  }

  /** The signs a literal may start with: none, plus or minus. */
  predicate IsSign(sign: string) {
    sign == "" || sign == "+" || sign == "-"
  }

  /** Whitespace around a signed run of digit groups is exactly what
      stripping removes. */
  lemma StripLiteral(pre: string, sign: string, b: string, post: string)
    requires AllSpace(pre) && AllSpace(post) && IsSign(sign) && IsDigitGroups(b)
    ensures Strip(pre + sign + b + post) == sign + b
  {
    assert GroupedAt(b, 0) && GroupedAt(b, |b| - 1);
    var x := sign + b;
    var w := pre + sign + b + post;
    var e := |pre| + |x|;
    assert w == pre + x + post;
    assert forall q :: 0 <= q < |pre| ==> w[q] == pre[q];
    assert w[|pre|] == x[0] == (if sign == "" then b[0] else sign[0]);
    assert StripStart(w) == |pre|;
    assert w[e - 1] == b[|b| - 1];
    assert forall q :: e <= q < |w| ==> w[q] == post[q - e];
    assert StripEnd(w) == e;
    assert w[|pre|..e] == x;
  }

  /** What `int()` gives once the stripped string is known to be a sign
      followed by digit groups. */
  lemma ParseStripped(s: string, sign: string, b: string)
    requires Strip(s) == sign + b && IsSign(sign) && IsDigitGroups(b)
    ensures Parse(s) ==
            if DigitCount(b) <= MAX_STR_DIGITS then
              Some(if sign == "-" then -(DigitsValue(b) as int) else DigitsValue(b) as int)
            else None
  {
    assert GroupedAt(b, 0);
    var t := Strip(s);
    if sign == "" {
      assert t == b && !(t[0] == '-' || t[0] == '+');
    } else {
      assert t[0] == sign[0] && t[1..] == b;
    }
  }

  /** `int()` accepts every literal made of surrounding whitespace, an
      optional sign and digit groups within the digit limit, leading zeros
      included, and gives the value those digits spell. */
  lemma ParseAccepts(pre: string, sign: string, b: string, post: string)
    requires AllSpace(pre) && AllSpace(post) && IsSign(sign)
    requires IsDigitGroups(b) && DigitCount(b) <= MAX_STR_DIGITS
    ensures Parse(pre + sign + b + post) ==
            Some(if sign == "-" then -(DigitsValue(b) as int) else DigitsValue(b) as int)
  {
    StripLiteral(pre, sign, b, post);
    ParseStripped(pre + sign + b + post, sign, b);
  }

  /** The converse of `ParseAccepts`: every string `int()` accepts is
      surrounding whitespace, an optional sign and digit groups within the
      digit limit, and its value is the one those digits spell. So a lone or
      repeated sign, a sign after a digit, and an empty or all-whitespace
      string are all refused. */
  lemma ParseShape(s: string)
    requires Parse(s).Some?
    ensures exists pre: string, sign: string, b: string, post: string ::
              s == pre + sign + b + post && AllSpace(pre) && AllSpace(post) && IsSign(sign) &&
              IsDigitGroups(b) && DigitCount(b) <= MAX_STR_DIGITS &&
              Parse(s).value == (if sign == "-" then -(DigitsValue(b) as int) else DigitsValue(b) as int)
  {
    var pre, post := StripSplit(s);
    var sign, b := LiteralParts(Strip(s));
    Regroup(pre, sign, b, post);
  }

  lemma Regroup(w: string, x: string, y: string, z: string)
    ensures w + x + y + z == w + (x + y) + z
  {
  }

  /** A literal `ParseLiteral` accepts is a sign followed by digit groups
      within the digit limit, and its value is theirs. */
  lemma LiteralParts(t: string) returns (sign: string, b: string)
    requires ParseLiteral(t).Some?
    ensures t == sign + b && IsSign(sign) && IsDigitGroups(b) && DigitCount(b) <= MAX_STR_DIGITS
    ensures ParseLiteral(t).value == (if sign == "-" then -(DigitsValue(b) as int) else DigitsValue(b) as int)
  {
    var signed := t[0] == '-' || t[0] == '+';
    sign := if signed then t[..1] else "";
    b := if signed then t[1..] else t;
    assert t == sign + b;
  }

  /** `s` is the whitespace stripping removes at either end around `Strip(s)`. */
  lemma StripSplit(s: string) returns (pre: string, post: string)
    ensures s == pre + Strip(s) + post && AllSpace(pre) && AllSpace(post)
  {
    var a, e := StripStart(s), StripEnd(s);
    pre, post := s[..a], s[e..];
    assert forall q :: 0 <= q < |pre| ==> pre[q] == s[q];
    assert forall q :: 0 <= q < |post| ==> post[q] == s[e + q];
    assert s == s[..a] + s[a..e] + s[e..];
  }

  /** A string without a digit, such as "", "  ", "+" or "-", makes
      `int(s)` raise. */
  lemma ParseRejectsNoDigit(s: string)
    requires forall i :: 0 <= i < |s| ==> !IsDigit(s[i])
    ensures Parse(s) == None
  {
    if Parse(s).Some? {
      StripKeeps(s, StripEnd(s) - 1);
    }
  }

  /** A literal with more than `MAX_STR_DIGITS` digits makes `int(s)` raise,
      however well formed it is: whitespace and a sign do not change that. */
  lemma ParseRejectsLongLiteral(pre: string, sign: string, b: string, post: string)
    requires AllSpace(pre) && AllSpace(post) && IsSign(sign)
    requires IsDigitGroups(b) && DigitCount(b) > MAX_STR_DIGITS
    ensures Parse(pre + sign + b + post) == None
  {
    StripLiteral(pre, sign, b, post);
    ParseStripped(pre + sign + b + post, sign, b);
  }

  /** A stripped string with a character other than a digit or an underscore
      anywhere but at a leading sign is refused. */
  lemma ParseRejectsAt(s: string, p: nat)
    requires p < |Strip(s)| && !IsDigit(Strip(s)[p]) && Strip(s)[p] != '_'
    requires p == 0 ==> Strip(s)[0] != '-' && Strip(s)[0] != '+'
    ensures Parse(s) == None
  {
    var t := Strip(s);
    if |t| > 0 && (t[0] == '-' || t[0] == '+') {
      NotDigitGroups(t[1..], p - 1);
    } else {
      NotDigitGroups(t, p);
    }
  }

  /** The same on the stripped string: an underscore there must have a digit
      on either side. */
  lemma ParseRejectsStrayAt(s: string, p: nat)
    requires p < |Strip(s)| && Strip(s)[p] == '_'
    requires !(0 < p < |Strip(s)| - 1 && IsDigit(Strip(s)[p - 1]) && IsDigit(Strip(s)[p + 1]))
    ensures Parse(s) == None
  {
    var t := Strip(s);
    if |t| > 0 && (t[0] == '-' || t[0] == '+') {
      var body := t[1..];
      assert p >= 1 && body[p - 1] == '_';
      assert !GroupedAt(body, p - 1);
    } else {
      assert !GroupedAt(t, p);
    }
  }

  /** An underscore that does not sit between two digits, as in "1__2",
      "_1", "1_" or "+_1", makes `int(s)` raise. */
  lemma ParseRejectsStrayUnderscore(s: string, i: nat)
    requires i < |s| && s[i] == '_'
    requires !(0 < i < |s| - 1 && IsDigit(s[i - 1]) && IsDigit(s[i + 1]))
    ensures Parse(s) == None
  {
    StripKeeps(s, i);
    var t := Strip(s);
    var p := i - StripStart(s);
    assert 0 < p ==> t[p - 1] == s[i - 1];
    assert p + 1 < |t| ==> t[p + 1] == s[i + 1];
    ParseRejectsStrayAt(s, p);
  }

  /** Whitespace between two characters that are not whitespace survives
      stripping, strictly inside the stripped string. */
  lemma StripInner(s: string, i: nat, j: nat, k: nat) returns (p: nat)
    requires i < j < k < |s|
    requires !IsSpace(s[i]) && IsSpace(s[j]) && !IsSpace(s[k])
    ensures 0 < p < |Strip(s)| && Strip(s)[p] == s[j]
  {
    StripKeeps(s, i);
    StripKeeps(s, k);
    p := j - StripStart(s);
  }

  /** Whitespace between two other characters, as in "- 1" or "1 000",
      makes `int(s)` raise: a sign must touch its digits. */
  lemma ParseRejectsInnerSpace(s: string, i: nat, j: nat, k: nat)
    requires i < j < k < |s|
    requires !IsSpace(s[i]) && IsSpace(s[j]) && !IsSpace(s[k])
    ensures Parse(s) == None
  {
    var p := StripInner(s, i, j, k);
    ParseRejectsAt(s, p);
  }
}
