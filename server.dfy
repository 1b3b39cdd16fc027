/**
 * The server as a stateful object: the two tables and the clock are fields,
 * and each route is a method that adds pending changes to the session and
 * commits them. Every mutating method is proved against the matching
 * function of `Handlers`; the read-only routes build their result lists
 * with a loop.
 */
module Service {
  import opened Wrappers
  import opened Records
  import Auth
  import Store
  import Handlers

  /** What the management page is rendered with: the number of cards and the cards. */
  datatype ManageView = ManageView(count: nat, cards: seq<string>)

  class Server {
    /** The `users` table: the one management user and the hash of their password. */
    const users: map<string, string>
    /** The hashing library's check of a password against a stored hash. */
    const checkHash: (string, string) -> bool

    /** The `cards` table, in row order. */
    var cards: seq<string>
    /** The `validation_logs` table, in insertion order. */
    var log: seq<LogEntry>
    /** The timestamp the next log row will get. */
    var clock: nat

    function State(): Store.Db
      reads this
    {
      Store.Db(cards, log, clock)
    }

    predicate Valid()
      reads this
    {
      Store.Valid(State())
    }

    /** The identity the basic-auth guard finds for the given credentials. */
    function Identity(username: string, password: string): Option<string>
    {
      Auth.VerifyPassword(users, checkHash, username, password)
    }

    /**
     * Start-up over the database file as it already is (`db.create_all()` keeps
     * existing tables), with the configured management credentials.
     */
    constructor (user: string, passwordHash: string, checkHash: (string, string) -> bool, stored: Store.Db)
      requires Store.Valid(stored)
      ensures Valid() && State() == stored
      ensures users == Auth.Users(user, passwordHash) && this.checkHash == checkHash
    {
      users := Auth.Users(user, passwordHash);
      this.checkHash := checkHash;
      cards, log, clock := stored.cards, stored.log, stored.clock;
    }

    /**
     * `db.session.commit()` of the pending changes `tx`: when the primary-key
     * checks pass, the card rows are rewritten and the pending log rows are
     * appended; otherwise nothing is written.
     */
    method Commit(tx: Store.Tx) returns (committed: bool)
      requires Valid()
      modifies this
      ensures Valid()
      ensures Store.Commit(old(State()), tx) == if committed then Success(State()) else Failure(Store.IntegrityError)
      ensures !committed ==> State() == old(State())
    {
      if !Store.Committable(State(), tx) {
        return false;
      }
      ghost var expected := Store.Commit(State(), tx).value;
      cards := Store.Without(cards, tx.deletes) + tx.inserts;
      AppendRows(tx.appends);
      assert State() == expected;
      committed := true;
    }

    /** Appends the pending log rows one by one, each stamped with the next clock tick. */
    method AppendRows(rows: seq<Store.LogRow>)
      modifies this`log, this`clock
      ensures log == old(log) + Store.Stamp(old(clock), rows)
      ensures clock == old(clock) + |rows|
    {
      ghost var before, start := log, clock;
      ghost var stamped := Store.Stamp(start, rows);
      var i := 0;
      while i < |rows|
        invariant 0 <= i <= |rows|
        invariant log == before + stamped[..i]
        invariant clock == start + i
      {
        var entry := LogEntry(clock, rows[i].uid, rows[i].status);
        Store.StampPrefix(start, rows, i);
        assert before + stamped[..i + 1] == (before + stamped[..i]) + [entry];
        log := log + [entry];
        clock := clock + 1;
        i := i + 1;
      }
      assert stamped[..i] == stamped;
    }

    /**
     * The start-up seed block: each seed id is added to the session in turn,
     * then one commit; a failed commit is printed and ignored.
     */
    method SeedCards(seeds: seq<string>) returns (outcome: Handlers.Outcome)
      requires Valid()
      modifies this
      ensures Valid()
      ensures Handlers.Seed(old(State()), seeds) == Handlers.Step(State(), outcome)
    {
      var pending := Store.Tx([], {}, []);
      for i := 0 to |seeds|
        invariant pending == Store.Tx(seeds[..i], {}, [])
      {
        assert seeds[..i + 1] == seeds[..i] + [seeds[i]];
        pending := pending.(inserts := pending.inserts + [seeds[i]]);
      }
      assert seeds[..|seeds|] == seeds;
      var committed := Commit(pending);
      outcome := if committed then Handlers.Ok else Handlers.Printed(Store.IntegrityError);
    }

    /** `/validate`: one log row from the body (or the sentinel row), one commit, "OK". */
    method Validate(payload: Handlers.Payload) returns (outcome: Handlers.Outcome)
      requires Valid()
      modifies this
      ensures Valid()
      ensures Handlers.Validate(old(State()), payload) == Handlers.Step(State(), outcome)
    {
      var row := Handlers.ValidationRow(payload);
      var committed := Commit(Store.Tx([], {}, [row]));
      outcome := if committed then Handlers.Ok else Handlers.ServerError(Store.IntegrityError);
    }

    /** `/sync`: one `{"UID": id}` object per card row, in row order; no credentials needed. */
    method Sync() returns (body: seq<Object>)
      ensures |body| == |cards|
      ensures forall i :: 0 <= i < |body| ==> ParseCard(body[i]) == Some(cards[i])
    {
      var rows := cards;
      body := [];
      for i := 0 to |rows|
        invariant |body| == i
        invariant forall k :: 0 <= k < i ==> body[k] == SerializeCard(rows[k])
      {
        body := body + [SerializeCard(rows[i])];
      }
      forall i | 0 <= i < |body| ensures ParseCard(body[i]) == Some(cards[i]) {
        CardRoundTrip(cards[i]);
      }
    }

    /** `/logs`: behind the auth guard, one object per log entry, in log order. */
    method GetLogs(username: string, password: string) returns (outcome: Handlers.Outcome, body: seq<Object>)
      ensures Identity(username, password).None? ==> outcome == Handlers.Unauthorized && body == []
      ensures Identity(username, password).Some? ==>
              outcome == Handlers.Ok && |body| == |log| &&
              forall i :: 0 <= i < |body| ==> ParseEntry(body[i]) == Some(log[i])
    {
      body := [];
      if Identity(username, password).None? {
        return Handlers.Unauthorized, body;
      }
      var entries := log;
      for i := 0 to |entries|
        invariant |body| == i
        invariant forall k :: 0 <= k < i ==> body[k] == SerializeEntry(entries[k])
      {
        body := body + [SerializeEntry(entries[i])];
      }
      forall i | 0 <= i < |body| ensures ParseEntry(body[i]) == Some(log[i]) {
        EntryRoundTrip(log[i]);
      }
      outcome := Handlers.Ok;
    }

    /** `/manage`: behind the auth guard, the page shows every card row and their count. */
    method Manage(username: string, password: string) returns (outcome: Handlers.Outcome, view: Option<ManageView>)
      ensures Identity(username, password).None? ==> outcome == Handlers.Unauthorized && view == None
      ensures Identity(username, password).Some? ==>
              outcome == Handlers.Ok && view == Some(ManageView(|cards|, cards))
    {
      if Identity(username, password).None? {
        return Handlers.Unauthorized, None;
      }
      var rows := cards;
      outcome, view := Handlers.Ok, Some(ManageView(|rows|, rows));
    }

    /** `/add`: behind the auth guard; see `Handlers.Add`. */
    method Add(username: string, password: string, newId: string) returns (outcome: Handlers.Outcome)
      requires Valid()
      modifies this
      ensures Valid()
      ensures Identity(username, password).None? ==> outcome == Handlers.Unauthorized && State() == old(State())
      ensures Identity(username, password).Some? ==> Handlers.Add(old(State()), newId) == Handlers.Step(State(), outcome)
    {
      if Identity(username, password).None? {
        return Handlers.Unauthorized;
      }
      if |newId| == Handlers.IdLength {
        var pending := Store.Tx([newId], {}, [Store.LogRow(newId, Handlers.AddedStatus)]);
        var committed := Commit(pending);
        // a failed commit is logged and swallowed
      }
      outcome := Handlers.Redirect(Handlers.ManagePage);
    }

    /** `/delete`: behind the auth guard; see `Handlers.Delete`. */
    method Delete(username: string, password: string, deleteUid: string) returns (outcome: Handlers.Outcome)
      requires Valid()
      modifies this
      ensures Valid()
      ensures Identity(username, password).None? ==> outcome == Handlers.Unauthorized && State() == old(State())
      ensures Identity(username, password).Some? ==> Handlers.Delete(old(State()), deleteUid) == Handlers.Step(State(), outcome)
    {
      if Identity(username, password).None? {
        return Handlers.Unauthorized;
      }
      var card := Store.Lookup(cards, deleteUid);
      if card.None? {
        // deleting the missing row raises before anything is committed
        return Handlers.ServerError(Store.UnmappedInstanceError);
      }
      var pending := Store.Tx([], {card.value}, [Store.LogRow(deleteUid, Handlers.DeletedStatus)]);
      var committed := Commit(pending);
      outcome := if committed then Handlers.Redirect(Handlers.ManagePage) else Handlers.ServerError(Store.IntegrityError);
    }
  }
}
