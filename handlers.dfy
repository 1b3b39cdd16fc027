/**
 * What each request handler of the server does to the store, as a function
 * from the state before the request to the state after it and the outcome.
 * These functions are the specification the `Service.Server` methods are
 * proved against; the lemmas below relate several requests.
 *
 * The handlers here are the ones past the auth guard; the guard itself is
 * in `Service.Server`.
 */
module Handlers {
  import opened Wrappers
  import opened Records
  import opened Store

  /**
   * What the client sees: 200 "OK", a redirect, an uncaught exception (a 500),
   * or a 401 challenge. `Printed` is the seed block's caught exception, which
   * is printed while start-up carries on.
   */
  datatype Outcome = Ok | Redirect(location: string) | ServerError(fault: Fault) | Unauthorized | Printed(fault: Fault)

  datatype Step = Step(db: Db, outcome: Outcome)

  const ManagePage := "manage"
  const SentinelUid := "HAXORS"
  const InvalidInput := "invalid input"
  const AddedStatus := "added"
  const DeletedStatus := "deleted"
  const IdLength := 8

  /** A `/validate` JSON body, restricted to string keys and string values. */
  type Payload = map<string, string>

  /**
   * The startup seed block: every seed id is added to the session and one
   * commit writes them all. If that commit raises, the exception is printed
   * and nothing is written: an id already registered, or two equal seeds,
   * leaves the card table as it was. Seed ids are not length-checked.
   */
  function Seed(db: Db, seeds: seq<string>): (s: Step)
    requires Valid(db)
    ensures Valid(s.db)
    ensures s.outcome.Ok? <==> NoDup(seeds) && forall x :: x in seeds ==> x !in db.cards
    ensures s.outcome.Ok? ==> s.db.cards == db.cards + seeds && s.db.log == db.log
    ensures !s.outcome.Ok? ==> s == Step(db, Printed(IntegrityError))
  {
    match Commit(db, Tx(seeds, {}, []))
    case Success(after) => Step(after, Ok)
    case Failure(fault) => Step(db, Printed(fault))
  }

  /**
   * The log row `/validate` adds: `UID` and `status` from the body, or, when
   * reading either key raises a KeyError, the sentinel row.
   */
  function ValidationRow(payload: Payload): (row: LogRow)
    ensures "UID" in payload && "status" in payload ==> row == LogRow(payload["UID"], payload["status"])
    ensures !("UID" in payload && "status" in payload) ==> row == LogRow(SentinelUid, InvalidInput)
  {
    if "UID" !in payload then LogRow(SentinelUid, InvalidInput)
    else if "status" !in payload then LogRow(SentinelUid, InvalidInput)
    else LogRow(payload["UID"], payload["status"])
  }

  /**
   * `/validate`: appends exactly one log entry, stamped after every earlier
   * one, leaves the card table alone and always answers "OK". A commit that
   * raised would be uncaught; under the invariant it never does.
   */
  function Validate(db: Db, payload: Payload): (s: Step)
    requires Valid(db)
    ensures Valid(s.db) && s.outcome == Ok
    ensures s.db.cards == db.cards
    ensures |s.db.log| == |db.log| + 1 && s.db.log[..|db.log|] == db.log
    ensures var e := s.db.log[|db.log|];
            (forall earlier :: earlier in db.log ==> earlier.timestamp < e.timestamp) &&
            if "UID" in payload && "status" in payload
            then e.uid == payload["UID"] && e.status == payload["status"]
            else e.uid == SentinelUid && e.status == InvalidInput
  {
    var tx := Tx([], {}, [ValidationRow(payload)]);
    LogKeysNeverCollide(db, tx);
    match Commit(db, tx)
    case Success(after) => Step(after, Ok)
    case Failure(fault) => Step(db, ServerError(fault))
  }

  /**
   * `/add`: an id of length other than 8 changes nothing. A fresh 8-character
   * id is registered and one "added" entry logged, in one commit. A registered
   * id makes that commit fail; the error is logged and swallowed, so neither
   * table changes. The answer is always a redirect to the management page.
   */
  function Add(db: Db, newId: string): (s: Step)
    requires Valid(db)
    ensures Valid(s.db) && s.outcome == Redirect(ManagePage)
    ensures |newId| != IdLength ==> s.db == db
    ensures newId in db.cards ==> s.db == db
    ensures |newId| == IdLength && newId !in db.cards ==>
            s.db.cards == db.cards + [newId] &&
            s.db.log == db.log + [LogEntry(db.clock, newId, AddedStatus)]
  {
    if |newId| == IdLength then
      var tx := Tx([newId], {}, [LogRow(newId, AddedStatus)]);
      LogKeysNeverCollide(db, tx);
      match Commit(db, tx)
      case Success(after) => Step(after, Redirect(ManagePage))
      case Failure(_) => Step(db, Redirect(ManagePage))
    else
      Step(db, Redirect(ManagePage))
  }

  /**
   * `/delete`: a registered id loses exactly its own card row (the other rows
   * keep their order) and one "deleted" entry is appended, so every earlier
   * entry, including that card's own history, survives. An unregistered id
   * makes the lookup yield nothing, and deleting nothing raises before any
   * commit: state is unchanged and the exception escapes as a server error.
   */
  function Delete(db: Db, uid: string): (s: Step)
    requires Valid(db)
    ensures Valid(s.db)
    ensures uid !in db.cards ==> s == Step(db, ServerError(UnmappedInstanceError))
    ensures uid in db.cards ==>
            s.outcome == Redirect(ManagePage) &&
            s.db.cards == Without(db.cards, {uid}) &&
            |s.db.cards| == |db.cards| - 1 &&
            (forall x :: x in s.db.cards <==> x in db.cards && x != uid) &&
            s.db.log == db.log + [LogEntry(db.clock, uid, DeletedStatus)]
  {
    match Lookup(db.cards, uid)
    case None => Step(db, ServerError(UnmappedInstanceError))
    case Some(card) =>
      var tx := Tx([], {card}, [LogRow(uid, DeletedStatus)]);
      LogKeysNeverCollide(db, tx);
      WithoutOne(db.cards, uid);
      match Commit(db, tx)
      case Success(after) => Step(after, Redirect(ManagePage))
      case Failure(fault) => Step(db, ServerError(fault))
  }

  /** The entries of the log about one card id, in log order. */
  function History(log: seq<LogEntry>, uid: string): seq<LogEntry>
  {
    if log == [] then []
    else (if log[0].uid == uid then [log[0]] else []) + History(log[1..], uid)
  }

  lemma {:induction false} HistoryAppend(a: seq<LogEntry>, b: seq<LogEntry>, uid: string)
    ensures History(a + b, uid) == History(a, uid) + History(b, uid)
  {
    if a != [] {
      assert (a + b)[1..] == a[1..] + b;
      HistoryAppend(a[1..], b, uid);
    } else {
      assert a + b == b;
    }
  }

  /**
   * Deleting a card keeps its history: the deleted id's entries gain one
   * "deleted" entry at the end, and every other id's history is unchanged.
   */
  lemma DeleteKeepsHistory(db: Db, uid: string, other: string)
    requires Valid(db) && uid in db.cards && other != uid
    ensures History(Delete(db, uid).db.log, uid) == History(db.log, uid) + [LogEntry(db.clock, uid, DeletedStatus)]
    ensures History(Delete(db, uid).db.log, other) == History(db.log, other)
  {
    var entry := LogEntry(db.clock, uid, DeletedStatus);
    HistoryAppend(db.log, [entry], uid);
    HistoryAppend(db.log, [entry], other);
    assert History([entry], uid) == [entry] by { assert [entry][1..] == []; }
    assert History([entry], other) == [] by { assert [entry][1..] == []; }
  }

  /**
   * Seeding is idempotent: run again with the same ids, the seed block finds
   * them registered, its commit fails, and the store is left as the first run
   * left it.
   */
  lemma SeedTwice(db: Db, seeds: seq<string>)
    requires Valid(db) && seeds != []
    ensures var once := Seed(db, seeds).db;
            Seed(once, seeds) == Step(once, Printed(IntegrityError))
  {
    var first := Seed(db, seeds);
    if first.outcome.Ok? {
      assert seeds[0] in first.db.cards;
    }
  }

  /** With the two configured seeds, equal seeds register nothing. */
  lemma EqualSeedsRegisterNothing(db: Db, card: string)
    requires Valid(db)
    ensures Seed(db, [card, card]) == Step(db, Printed(IntegrityError))
  {
    assert !NoDup([card, card]) by { assert [card, card][0] == [card, card][1]; }
  }

  /** A request reaching a handler past the auth guard. Reads change nothing. */
  datatype Request =
    | ValidateRequest(payload: Payload)
    | AddRequest(newId: string)
    | DeleteRequest(uid: string)
    | ReadRequest

  function Handle(db: Db, req: Request): (s: Step)
    requires Valid(db)
    ensures Valid(s.db)
  {
    match req
    case ValidateRequest(payload) => Validate(db, payload)
    case AddRequest(newId) => Add(db, newId)
    case DeleteRequest(uid) => Delete(db, uid)
    case ReadRequest => Step(db, Ok)
  }

  /** The store after serving a sequence of requests one after another. */
  function Run(db: Db, reqs: seq<Request>): Db
    requires Valid(db)
    decreases |reqs|
  {
    if reqs == [] then db else Run(Handle(db, reqs[0]).db, reqs[1..])
  }

  /**
   * Over any sequence of requests the log only grows (every earlier entry
   * stays where it was), the clock never goes back, and card ids stay unique.
   */
  lemma {:induction false} RunIsAppendOnly(db: Db, reqs: seq<Request>)
    requires Valid(db)
    ensures Valid(Run(db, reqs))
    ensures db.log <= Run(db, reqs).log
    ensures db.clock <= Run(db, reqs).clock
    decreases |reqs|
  {
    if reqs != [] {
      var next := Handle(db, reqs[0]).db;
      assert db.log <= next.log && db.clock <= next.clock;
      RunIsAppendOnly(next, reqs[1..]);
    }
  }
}
