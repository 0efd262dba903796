/** Decoded JSON values and the parts of Python's semantics that the webhook
    handler applies to them: `k in v`, `v[k]`, `for x in v` and `int(v)`.
    Every Python exception is a `Fault` carrying the exception's class. */
module PyValues {
  import opened Options
  import IntParse

  /** The exception classes the handler can meet. */
  datatype Exc =
    | KeyError        // a missing dictionary key
    | TypeError       // subscripting, iterating or converting a value of the wrong type
    | ValueError      // int() of a string that is not an integer literal
    | DateError       // datetime.fromtimestamp refused the seconds: ValueError for a
                      // year outside 1..9999, OSError when localtime() fails,
                      // OverflowError when the value does not fit the C time_t
    | DatabaseError   // the commit was refused

  /** Either a value or the exception that was raised instead. */
  datatype Result<+T> = Ok(value: T) | Fault(exc: Exc) {
    predicate IsFailure() { Fault? }
    function PropagateFailure<U>(): Result<U> requires Fault? { Fault(exc) }
    function Extract(): T requires Ok? { value }
  }

  /** A value as `json.loads` produces it. An object keeps its members in
      document order; floats are modelled as exact reals. */
  datatype Json =
    | JNull
    | JBool(b: bool)
    | JInt(i: int)
    | JFloat(r: real)
    | JStr(s: string)
    | JArray(items: seq<Json>)
    | JObject(fields: seq<(string, Json)>)

  predicate HasKey(fields: seq<(string, Json)>, k: string) {
    exists i :: 0 <= i < |fields| && fields[i].0 == k
  }

  /** Dictionary lookup. With a repeated key `json.loads` keeps the last
      binding, so the search runs from the end. */
  function Lookup(fields: seq<(string, Json)>, k: string): (r: Option<Json>)
    ensures r.Some? <==> HasKey(fields, k)
    decreases |fields|
  {
    if |fields| == 0 then None
    else if fields[|fields| - 1].0 == k then Some(fields[|fields| - 1].1)
    else
      var r := Lookup(fields[..|fields| - 1], k);
      assert forall i :: 0 <= i < |fields| - 1 ==> fields[..|fields| - 1][i] == fields[i];
      r
  }

  /** Position `i` holds the last binding of `k`: no later member has that key. */
  predicate IsLastBinding(fields: seq<(string, Json)>, k: string, i: nat)
    requires i < |fields|
  {
    fields[i].0 == k && forall j :: i < j < |fields| ==> fields[j].0 != k
  }

  /** A last member with another key is passed over. */
  lemma LookupSkipsLast(fields: seq<(string, Json)>, k: string)
    requires |fields| > 0 && fields[|fields| - 1].0 != k
    ensures Lookup(fields, k) == Lookup(fields[..|fields| - 1], k)
  {
  }

  /** The value found is that of the last binding of the key. */
  lemma {:induction false} LookupLastBinding(fields: seq<(string, Json)>, k: string)
    requires HasKey(fields, k)
    ensures exists i: nat :: i < |fields| && IsLastBinding(fields, k, i) && fields[i].1 == Lookup(fields, k).value
    decreases |fields|
  {
    var n := |fields|;
    if fields[n - 1].0 == k {
      assert IsLastBinding(fields, k, n - 1) && fields[n - 1].1 == Lookup(fields, k).value;
    } else {
      var init := fields[..n - 1];
      var w :| 0 <= w < n && fields[w].0 == k;
      assert init[w] == fields[w];
      LookupLastBinding(init, k);
      var i: nat :| i < |init| && IsLastBinding(init, k, i) && init[i].1 == Lookup(init, k).value;
      LookupSkipsLast(fields, k);
      assert fields[i] == init[i];
      forall j | i < j < n
        ensures fields[j].0 != k
      {
        if j < n - 1 {
          assert init[j] == fields[j];
        }
      }
      assert IsLastBinding(fields, k, i) && fields[i].1 == Lookup(fields, k).value;
    }
  }

  predicate OccursAt(k: string, s: string, i: nat) {
    i + |k| <= |s| && s[i..i + |k|] == k
  }

  predicate IsSubstring(k: string, s: string) {
    exists i: nat | i <= |s| :: OccursAt(k, s, i)
  }

  /** Python's `k in v` for a string `k`: key membership for a dict, element
      membership for a list, substring for a string; anything else raises. */
  function Contains(v: Json, k: string): (r: Result<bool>)
    ensures r.Fault? <==> !(v.JObject? || v.JArray? || v.JStr?)
    ensures r.Fault? ==> r.exc == TypeError
    ensures v.JObject? ==> r == Ok(HasKey(v.fields, k))
  {
    match v
    case JObject(fields) => Ok(HasKey(fields, k))
    case JArray(items) => Ok(JStr(k) in items)
    case JStr(s) => Ok(IsSubstring(k, s))
    case _ => Fault(TypeError)
  }

  /** Python's `v[k]` for a string `k`: only a dict can be subscripted by a
      string; a missing key raises KeyError, every other value TypeError. */
  function Index(v: Json, k: string): (r: Result<Json>)
    ensures r.Ok? <==> v.JObject? && HasKey(v.fields, k)
    ensures r.Fault? && v.JObject? ==> r.exc == KeyError
    ensures r.Fault? && !v.JObject? ==> r.exc == TypeError
  {
    match v
    case JObject(fields) =>
      (match Lookup(fields, k)
       case Some(x) => Ok(x)
       case None => Fault(KeyError))
    case _ => Fault(TypeError)
  }

  /** The keys of an object in the order a dict iterates them: each distinct
      key once, at the position of its first occurrence. */
  function DistinctKeys(fields: seq<(string, Json)>): (ks: seq<string>)
    ensures forall k :: k in ks <==> HasKey(fields, k)
    ensures forall i, j :: 0 <= i < j < |ks| ==> ks[i] != ks[j]
    decreases |fields|
  {
    if |fields| == 0 then []
    else
      var init := fields[..|fields| - 1];
      var rest := DistinctKeys(init);
      var k := fields[|fields| - 1].0;
      assert forall i :: 0 <= i < |init| ==> init[i] == fields[i];
      assert forall q :: HasKey(fields, q) <==> HasKey(init, q) || q == k;
      if k in rest then rest else rest + [k]
  }

  /** What `for x in v` visits: the elements of a list, the keys of a dict
      (as strings), the one-character strings of a string; any other value is
      not iterable. */
  function Iterate(v: Json): (r: Result<seq<Json>>)
    ensures r.Fault? <==> !(v.JObject? || v.JArray? || v.JStr?)
    ensures r.Fault? ==> r.exc == TypeError
    ensures v.JArray? ==> r == Ok(v.items)
    ensures v.JStr? ==> r.Ok? && |r.value| == |v.s| &&
                        forall i :: 0 <= i < |v.s| ==> r.value[i] == JStr([v.s[i]])
    ensures v.JObject? ==> r.Ok? && (|r.value| == 0 <==> |v.fields| == 0) &&
                           forall x :: x in r.value ==> x.JStr?
    ensures v.JObject? ==> forall x :: x in r.value <==> x.JStr? && HasKey(v.fields, x.s)
  {
    match v
    case JArray(items) => Ok(items)
    case JStr(s) => Ok(seq(|s|, i requires 0 <= i < |s| => JStr([s[i]])))
    case JObject(fields) =>
      var ks := DistinctKeys(fields);
      assert |fields| > 0 ==> HasKey(fields, fields[0].0);
      assert |ks| > 0 ==> HasKey(fields, ks[0]);
      var names := seq(|ks|, i requires 0 <= i < |ks| => JStr(ks[i]));
      assert forall x: Json :: x in names <==> x.JStr? && x.s in ks by {
        forall x: Json | x.JStr? && x.s in ks
          ensures x in names
        {
          var i :| 0 <= i < |ks| && ks[i] == x.s;
          assert names[i] == x;
        }
      }
      Ok(names)
    case _ => Fault(TypeError)
  }

  /** int() of a float: truncation toward zero. */
  function Truncate(r: real): (t: int)
    ensures 0.0 <= r ==> 0 <= t && t as real <= r < t as real + 1.0
    ensures r < 0.0 ==> t <= 0 && t as real - 1.0 < r <= t as real
  {
    if r >= 0.0 then r.Floor else -((-r).Floor)
  }

  /** Python's `int(v)`: an int is itself, a bool is 0 or 1, a float is
      truncated, a string is parsed as a decimal literal; null, lists and
      dicts raise TypeError. */
  function ToInt(v: Json): (r: Result<int>)
    ensures r.Fault? <==> v.JNull? || v.JArray? || v.JObject? ||
                          (v.JStr? && IntParse.Parse(v.s).None?)
    ensures r.Fault? ==> r.exc == (if v.JStr? then ValueError else TypeError)
    ensures v.JInt? ==> r == Ok(v.i)
    ensures v.JBool? ==> r == Ok(if v.b then 1 else 0)
    ensures v.JFloat? ==> r == Ok(Truncate(v.r))
    ensures v.JStr? && IntParse.Parse(v.s).Some? ==> r == Ok(IntParse.Parse(v.s).value)
  {
    match v
    case JInt(i) => Ok(i)
    case JBool(b) => Ok(if b then 1 else 0)
    case JFloat(x) => Ok(Truncate(x))
    case JStr(s) =>
      (match IntParse.Parse(s)
       case Some(n) => Ok(n)
       case None => Fault(ValueError))
    case _ => Fault(TypeError)
  }

  /** `int()` of the numeral `str(n)` is `n`. */
  lemma ToIntShow(n: int)
    requires |IntParse.ShowNat(if n < 0 then -n else n)| <= IntParse.MAX_STR_DIGITS
    ensures ToInt(JStr(IntParse.Show(n))) == Ok(n)
  {
    IntParse.ParseShow(n);
  }

  /** Python's `ms // 1000`: floor division (it rounds toward minus infinity,
      also for negative values). */
  function FloorDivMillis(ms: int): (s: int)
    ensures s * 1000 <= ms < s * 1000 + 1000
    ensures 0 <= ms ==> 0 <= s
  {
    ms / 1000
  }
}
