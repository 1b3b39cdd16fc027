/**
 * The relational store behind the server: the `cards` table (primary key `UID`)
 * and the `validation_logs` table (primary key `(timestamp, UID)`), and the
 * session commit that writes a batch of pending changes to them.
 *
 * A commit is all-or-nothing: either every pending insert, delete and log row
 * is written, or the commit raises an integrity error and both tables keep
 * their old contents. Primary keys are checked at commit. Timestamps come
 * from an abstract clock that only moves forward.
 */
module Store {
  import opened Wrappers
  import opened Records

  /** A `ValidationLog` row added to the session, before the commit gives it a timestamp. */
  datatype LogRow = LogRow(uid: string, status: string)

  /** Both tables, in row order, and the next timestamp the clock will hand out. */
  datatype Db = Db(cards: seq<string>, log: seq<LogEntry>, clock: nat)

  /** The changes pending in the session: cards added, cards deleted, log rows added. */
  datatype Tx = Tx(inserts: seq<string>, deletes: set<string>, appends: seq<LogRow>)

  /** The exceptions the modelled code can raise. */
  datatype Fault = IntegrityError | UnmappedInstanceError

  predicate NoDup<T(==)>(s: seq<T>)
  {
    forall i, j :: 0 <= i < j < |s| ==> s[i] != s[j]
  }

  /** Log timestamps strictly increase in insertion order, and all lie before the clock. */
  predicate Chronological(log: seq<LogEntry>, clock: nat)
  {
    (forall i, j :: 0 <= i < j < |log| ==> log[i].timestamp < log[j].timestamp) &&
    (forall i :: 0 <= i < |log| ==> log[i].timestamp < clock)
  }

  /** The store's invariant: card ids are unique and the log is in timestamp order. */
  predicate Valid(db: Db)
  {
    NoDup(db.cards) && Chronological(db.log, db.clock)
  }

  /** The card rows that survive deleting the ids in `gone`, in their old order. */
  function Without(rows: seq<string>, gone: set<string>): (r: seq<string>)
    ensures forall x :: x in r <==> x in rows && x !in gone
    ensures |r| <= |rows|
    ensures NoDup(rows) ==> NoDup(r)
    ensures (forall x :: x in gone ==> x !in rows) ==> r == rows
  {
    if rows == [] then []
    else if rows[0] in gone then Without(rows[1..], gone)
    else
      var rest := Without(rows[1..], gone);
      assert NoDup(rows) ==> rows[0] !in rows[1..];
      [rows[0]] + rest
  }

  /** Deleting one registered id from a duplicate-free table removes exactly one row. */
  lemma {:induction false} WithoutOne(rows: seq<string>, x: string)
    requires NoDup(rows) && x in rows
    ensures |Without(rows, {x})| == |rows| - 1
  {
    if rows[0] == x {
      assert x !in rows[1..];
      assert Without(rows[1..], {x}) == rows[1..];
    } else {
      assert NoDup(rows[1..]);
      WithoutOne(rows[1..], x);
    }
  }

  /** The log entries a commit writes: each pending row gets the next clock tick. */
  function Stamp(clock: nat, rows: seq<LogRow>): (r: seq<LogEntry>)
    ensures |r| == |rows|
    ensures forall i :: 0 <= i < |r| ==> r[i] == LogEntry(clock + i, rows[i].uid, rows[i].status)
    decreases rows
  {
    if rows == [] then []
    else [LogEntry(clock, rows[0].uid, rows[0].status)] + Stamp(clock + 1, rows[1..])
  }

  /** Stamping a longer prefix of the pending rows adds one entry, at the next tick. */
  lemma StampPrefix(clock: nat, rows: seq<LogRow>, i: nat)
    requires i < |rows|
    ensures Stamp(clock, rows)[..i + 1] == Stamp(clock, rows)[..i] + [LogEntry(clock + i, rows[i].uid, rows[i].status)]
  {
    var stamped := Stamp(clock, rows);
    assert stamped[i] == LogEntry(clock + i, rows[i].uid, rows[i].status);
    assert stamped[..i + 1] == stamped[..i] + [stamped[i]];
  }

  /** The composite key `(timestamp, UID)` of each new entry is unused, and new keys are distinct. */
  predicate KeysFresh(log: seq<LogEntry>, entries: seq<LogEntry>)
  {
    (forall e, f :: e in entries && f in log ==> e.timestamp != f.timestamp || e.uid != f.uid) &&
    (forall i, j :: 0 <= i < j < |entries| ==>
       entries[i].timestamp != entries[j].timestamp || entries[i].uid != entries[j].uid)
  }

  /**
   * The primary-key checks a commit makes. A card id deleted and inserted
   * again in one transaction is checked against the rows left after the
   * delete, as the unit of work turns that pair into an update.
   */
  predicate Committable(db: Db, tx: Tx)
  {
    NoDup(tx.inserts) &&
    (forall x :: x in tx.inserts ==> x !in Without(db.cards, tx.deletes)) &&
    KeysFresh(db.log, Stamp(db.clock, tx.appends))
  }

  /**
   * `db.session.commit()`: writes the whole transaction or nothing. Surviving
   * card rows keep their order and inserted rows follow them; the log is only
   * ever appended to; a commit keeps the store's invariant.
   */
  function Commit(db: Db, tx: Tx): (r: Result<Db, Fault>)
    ensures r.Success? <==> Committable(db, tx)
    ensures r.Failure? ==> r.error == IntegrityError
    ensures r.Success? ==> r.value.cards == Without(db.cards, tx.deletes) + tx.inserts
    ensures r.Success? ==> forall x :: x in r.value.cards <==> (x in db.cards && x !in tx.deletes) || x in tx.inserts
    ensures r.Success? ==> r.value.log == db.log + Stamp(db.clock, tx.appends)
    ensures r.Success? ==> r.value.clock == db.clock + |tx.appends|
    ensures r.Success? && Valid(db) ==> Valid(r.value)
  {
    if Committable(db, tx) then
      var after := Db(Without(db.cards, tx.deletes) + tx.inserts,
                      db.log + Stamp(db.clock, tx.appends),
                      db.clock + |tx.appends|);
      CommitKeepsValid(db, tx, after);
      Success(after)
    else
      Failure(IntegrityError)
  }

  lemma CommitKeepsValid(db: Db, tx: Tx, after: Db)
    requires Committable(db, tx)
    requires after == Db(Without(db.cards, tx.deletes) + tx.inserts,
                         db.log + Stamp(db.clock, tx.appends),
                         db.clock + |tx.appends|)
    ensures Valid(db) ==> Valid(after)
  {
    if Valid(db) {
      InsertKeepsUnique(Without(db.cards, tx.deletes), tx.inserts);
      StampKeepsChronological(db.log, db.clock, tx.appends);
    }
  }

  lemma InsertKeepsUnique(kept: seq<string>, inserts: seq<string>)
    requires NoDup(kept) && NoDup(inserts)
    requires forall x :: x in inserts ==> x !in kept
    ensures NoDup(kept + inserts)
  {
    var all := kept + inserts;
    forall i, j | 0 <= i < j < |all| ensures all[i] != all[j] {
      if i >= |kept| {
        assert all[i] == inserts[i - |kept|] && all[j] == inserts[j - |kept|];
      } else if j >= |kept| {
        assert all[i] in kept && all[j] in inserts;
      }
    }
  }

  lemma StampKeepsChronological(log: seq<LogEntry>, clock: nat, rows: seq<LogRow>)
    requires Chronological(log, clock)
    ensures Chronological(log + Stamp(clock, rows), clock + |rows|)
  {
    var stamped := Stamp(clock, rows);
    var all := log + stamped;
    forall i, j | 0 <= i < j < |all| ensures all[i].timestamp < all[j].timestamp {
      if j >= |log| {
        assert all[j] == stamped[j - |log|];
        if i >= |log| {
          assert all[i] == stamped[i - |log|];
        }
      }
    }
    forall i | 0 <= i < |all| ensures all[i].timestamp < clock + |rows| {
      if i >= |log| {
        assert all[i] == stamped[i - |log|];
      }
    }
  }

  /**
   * Under the invariant, log rows never collide on `(timestamp, UID)`: a
   * commit fails only on the card table's primary key.
   */
  lemma LogKeysNeverCollide(db: Db, tx: Tx)
    requires Valid(db)
    ensures Committable(db, tx) <==>
            NoDup(tx.inserts) &&
            (forall x :: x in tx.inserts ==> x !in Without(db.cards, tx.deletes))
  {
    var stamped := Stamp(db.clock, tx.appends);
    forall e, f | e in stamped && f in db.log ensures e.timestamp != f.timestamp {
      var k :| 0 <= k < |stamped| && stamped[k] == e;
      var m :| 0 <= m < |db.log| && db.log[m] == f;
    }
  }

  /** `Card.query.filter_by(UID=uid).first()`: the registered card with that id, if any. */
  function Lookup(cards: seq<string>, uid: string): (card: Option<string>)
    ensures card.Some? <==> uid in cards
    ensures card.Some? ==> card.value == uid
  {
    if uid in cards then Some(uid) else None
  }
}
