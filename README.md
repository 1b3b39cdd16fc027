# TicketValidatorServer: a Dafny model of the validation server

The server keeps two tables. The `cards` table is the registry of card ids allowed to enter; its primary key is `UID`. The `validation_logs` table is an audit trail of `(timestamp, UID, status)` entries, keyed on `(timestamp, UID)`. Every HTTP handler is one short, atomic transition on these tables:

- the start-up seed block registers the two configured card ids;
- `/validate` records a validation event, or a `HAXORS` / `invalid input` sentinel row when the body lacks `UID` or `status`;
- `/add` and `/delete`, behind basic auth, register and remove cards and log `added` or `deleted`;
- `/sync`, `/logs` and `/manage` only read.

The model has these modules:

- `Auth` (auth.dfy) holds the `users` table and `verify_password`. The hashing library's check is a parameter.
- `Records` (records.dfy) holds the log-entry record and the JSON objects that `serialize` builds. It also reads them back: that reader is the round-trip partner showing that serialization loses nothing.
- `Store` (store.dfy) holds both tables as a `Db` value and the changes pending in the session as a `Tx` value. `Store.Commit` is the all-or-nothing `db.session.commit()`: it checks the primary keys, writes everything or nothing, and keeps the invariant `Store.Valid` (card ids unique, log in timestamp order).
- `Handlers` (handlers.dfy) gives each handler as a function from the state before a request to the state after it, plus the outcome. These functions state what each handler does to the tables, and lemmas relate several requests: seeding twice, history kept across a delete, and the log only growing over any run of requests.
- `Service` (server.dfy) models the server as the class `Server`. Its fields are `cards`, `log` and `clock`. Each route is a method that adds pending changes and commits them. Each mutating method is proved equal to its `Handlers` function. The read-only routes build their result lists in loops.

The model follows the code where it differs from the service's intended behaviour:

- `/delete` of an id that is not registered is not a no-op. The lookup at `server.py:136` returns `None`, so `db.session.delete(None)` raises at line 137. Nothing is committed and the exception escapes as a server error (`Handlers.Delete`, outcome `ServerError(UnmappedInstanceError)`).
- Seeding is one transaction, not one insert per id. If either seed id is already registered, or the two seeds are equal, the one commit fails. The exception is printed and neither seed is registered (`Handlers.Seed`, `Handlers.EqualSeedsRegisterNothing`).
- Seed ids are not length-checked; only `/add` requires 8 characters.

## Model

| member | source | states |
|---|---|---|
| Auth.OnlyConfiguredUser | TicketValidatorServer/app/server.py:23-31 | with one configured user and a hash that accepts only the configured password, only the configured pair authenticates; any other name or password yields no identity |
| Records.CardRoundTrip | TicketValidatorServer/app/server.py:42-51 | the `{"UID": id}` object a card serializes to gives back exactly that id |
| Records.EntryRoundTrip | TicketValidatorServer/app/server.py:53-64 | the `{timestamp, UID, status}` object a log entry serializes to gives back exactly that entry |
| Store.Stamp | TicketValidatorServer/app/server.py:55 | each log row written by a commit gets the next clock tick as its timestamp, in the order the rows were added |
| Store.Commit | TicketValidatorServer/app/server.py:42-57 | a commit succeeds exactly when inserted card ids are distinct and absent from the rows that survive the deletes, and new log keys are unused; on success surviving card rows keep their order, inserted rows follow, and the log is only appended to; on failure it is an integrity error; a successful commit keeps ids unique and the log in timestamp order |
| Store.WithoutOne | TicketValidatorServer/app/server.py:137 | deleting one registered id from a duplicate-free card table removes exactly one row |
| Store.LogKeysNeverCollide | TicketValidatorServer/app/server.py:53-57 | under the invariant, new log rows never collide on `(timestamp, UID)`, so a commit fails only on the card table |
| Handlers.Seed | TicketValidatorServer/app/server.py:66-76 | seeding commits exactly when the seeds are distinct and none is registered, and then appends them to the card table and leaves the log alone; otherwise nothing changes and the integrity error is printed rather than raised |
| Handlers.SeedTwice | TicketValidatorServer/app/server.py:69-76 | seeding again with the same ids fails and leaves the store as the first seeding left it |
| Handlers.EqualSeedsRegisterNothing | TicketValidatorServer/app/server.py:66-76 | two equal seed ids make the seed commit fail and register nothing |
| Handlers.Validate | TicketValidatorServer/app/server.py:82-92 | validation appends exactly one entry after all earlier ones, holding the body's `UID` and `status` or the sentinel; the cards are untouched and the answer is always OK |
| Handlers.Add | TicketValidatorServer/app/server.py:117-130 | an id whose length is not 8 changes nothing; a registered id changes nothing; a fresh 8-character id is appended to the cards with one `added` entry at the current tick; the answer is always the redirect to `manage` |
| Handlers.Delete | TicketValidatorServer/app/server.py:132-140 | a registered id loses exactly its row, with the other rows unchanged, and one `deleted` entry is appended after all earlier entries; an unregistered id changes nothing and ends in an error, not a redirect |
| Handlers.DeleteKeepsHistory | TicketValidatorServer/app/server.py:136-139 | after a delete, the deleted card's history is its old history plus the `deleted` entry, and every other id's history is unchanged |
| Handlers.RunIsAppendOnly | TicketValidatorServer/app/server.py:82-140 | over any sequence of validate, add, delete and read requests the old log is a prefix of the new one, the clock never goes back, and card ids stay unique |
| Service.Server.constructor | TicketValidatorServer/app/server.py:23-25 | the server starts over the stored tables with the configured user mapped to the password hash |
| Service.Server.Commit | TicketValidatorServer/app/server.py:44-57 | the in-place commit leaves the server in exactly the state `Store.Commit` gives, or unchanged when that commit fails |
| Service.Server.AppendRows | TicketValidatorServer/app/server.py:55 | appending the pending rows one by one extends the log by their stamped entries and advances the clock by their number |
| Service.Server.SeedCards | TicketValidatorServer/app/server.py:66-76 | adding the seeds to the session one by one and committing reaches exactly the state and outcome of `Handlers.Seed` |
| Service.Server.Validate | TicketValidatorServer/app/server.py:82-92 | the handler reaches exactly the state and outcome of `Handlers.Validate` |
| Service.Server.Sync | TicketValidatorServer/app/server.py:94-100 | the answer has one object per card row, in row order, and each object reads back as that row's id |
| Service.Server.GetLogs | TicketValidatorServer/app/server.py:102-109 | without an identity the answer is a 401 challenge with no body; with one, the answer is OK with one object per log entry, in order, each reading back as that entry |
| Service.Server.Manage | TicketValidatorServer/app/server.py:111-115 | without an identity the answer is a 401 challenge; with one, the page is given every card row and their count |
| Service.Server.Add | TicketValidatorServer/app/server.py:117-130 | without an identity the answer is a 401 challenge and nothing changes; with one, the handler reaches exactly the state and outcome of `Handlers.Add` |
| Service.Server.Delete | TicketValidatorServer/app/server.py:132-140 | without an identity the answer is a 401 challenge and nothing changes; with one, the handler reaches exactly the state and outcome of `Handlers.Delete` |

## Left out

- The `/` route (`hello`) returns a fixed greeting and touches no state. It is not modelled.
- Flask routing, HTTP status codes, building the redirect, `render_template` and `json.dumps` text formatting (including rendering timestamps with `default=str`) are not modelled. Outcomes are an enum, JSON objects are maps from column names to values, and the management page is the pair it is rendered with.
- Password hashing (`generate_password_hash` / `check_password_hash`) is foreign code. The stored hash is an opaque string and the check is a parameter of the server.
- Basic-auth header parsing and the 401 challenge belong to the auth library. The guard is modelled as "`verify_password` yields an identity".
- SQLAlchemy session and flush mechanics, and the `inspect`-based reflection in `Serializer`, are not modelled. A commit is one atomic step that checks primary keys, and `serialize` is written out per record type with its column names.
- The foreign key from `validation_logs.UID` to `cards.UID` is not enforced by SQLite by default, and it is not modelled. Sentinel rows and entries for deleted cards are therefore accepted.
- `datetime.utcnow` is replaced by an abstract clock that advances once per log row. The case where two rows get the same instant and collide on `(timestamp, UID)` is therefore not modelled.
- The order of `Card.query.all()` and `ValidationLog.query.all()` is modelled as table row order. Surviving rows keep their insertion order. SQLite itself does not promise any order without `ORDER BY`.
- Values that would be `None` in Python are outside the model, whose ids, payload values and user names are strings. The cases are:
  - A `/validate` body that is not a JSON object fails before the KeyError fallback, and is not modelled. Neither is a body whose values are not strings.
  - A missing `uid` form field on `/add` makes `len(None)` raise before the length check, and is not modelled.
  - A missing `delete` query parameter on `/delete` finds no card, and deleting nothing raises. This is the same path, with the same outcome, as `Handlers.Delete` on an unregistered id.
  - An unset seed variable makes the seed commit fail. The exception is printed and nothing is registered, as on `Handlers.Seed`'s failure path.
  - An unset management user name keys `users` by `None`, so no login yields an identity and every guarded route answers with the 401 challenge.
  - An unset management password makes hashing fail at start-up. This is not modelled.
- `.env` loading, logging, `print`, `server.run` and the unused imports are not modelled.
- Concurrency between requests is left to the host server and the database, and is not modelled. This includes a card deleted by another request between the lookup and the commit of `/delete`: deleting a row that is already gone does not make the modelled commit fail.
