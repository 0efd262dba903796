/** The `messages` table and the database session the handler writes it
    through (webhook.py:20-29). The database engine itself is outside the
    model: whether it accepts a row at commit time is the parameter
    `accepts`, on top of the NOT NULL constraints the table declares. */
module Store {
  import opened PyValues

  /** One `Message` row: `date` in whole seconds since the epoch, `text` and
      `user_id` exactly the JSON values taken from the event. The primary key
      `id` is assigned by the database and is not modelled. */
  datatype Message = Message(date: int, text: Json, userId: Json)

  /** What the database decides about a row beyond the table's declarations
      (connection state, type coercion of the column values). */
  type Verdict = Message -> bool

  /** `text` and `user_id` are declared `nullable=False`, so a JSON null in
      either makes the commit fail; `date` is always set. */
  predicate Committable(row: Message, accepts: Verdict) {
    row.text != JNull && row.userId != JNull && accepts(row)
  }

  /** The session: rows made permanent by earlier commits, and rows added
      since the last commit or rollback. */
  class Session {
    var committed: seq<Message>
    var pending: seq<Message>

    constructor ()
      ensures committed == [] && pending == []
    {
      committed := [];
      pending := [];
    }

    /** `session.add(row)`: the row joins the unit of work. */
    method Add(row: Message)
      modifies this
      ensures pending == old(pending) + [row]
      ensures committed == old(committed)
    {
      pending := pending + [row];
    }

    /** `session.commit()`: every pending row becomes permanent, or, when the
        database refuses one of them, nothing changes and the call raises
        (`ok` is false). */
    method Commit(accepts: Verdict) returns (ok: bool)
      modifies this
      ensures ok <==> forall r :: r in old(pending) ==> Committable(r, accepts)
      ensures ok ==> committed == old(committed) + old(pending) && pending == []
      ensures !ok ==> committed == old(committed) && pending == old(pending)
    {
      ok := forall r <- pending :: Committable(r, accepts);
      if ok {
        committed := committed + pending;
        pending := [];
      }
    }

    /** `session.rollback()`: the uncommitted rows are discarded. */
    method Rollback()
      modifies this
      ensures pending == []
      ensures committed == old(committed)
    {
      pending := [];
    }
  }
}
