# lovebut: the `API` facade over the `user` table

lovebut is a small web application. Users who are signed in send "love, but…"
messages to one another by email. Every caller goes through one facade, the
`API` class. It reaches the single `user` table through database sessions and
hands mail to `send_message`. This project models that facade and proves what
each of its calls does to the store.

The store is modelled as three parts:
- `users`: the rows of `user`, in insertion order, so "the first match" is the
  row with the lowest index;
- `nextId`: the next value of the `user_seq` sequence (on an engine that has sequences; see "## Left out");
- `outbox`: every `send_message` call made so far.

The model has four layers:

- `Tables` (`tables.dfy`): the `User` row and the schema's constraints. These
  are the primary key `userid`, the unique `email`, and the column widths 120
  (identity), 20 (screenname) and 256 (email). `Constrained` is their
  conjunction. NOT NULL holds by construction, because no field of the row
  type is optional.
- `Orm` (`orm.dfy`): the mapper calls the facade uses. `All` is
  `.filter(...).all()`. `First` gives the position of `matches[0]` in the
  table. `One` is `.one()`, which raises `NoResultFound` or
  `MultipleResultsFound`. `Flush` writes the pending changes and raises
  `IntegrityError` for a duplicate key or email, and `DataError` for a value
  wider than its column.
- `Facade` (`facade.dfy`): the two sentinels `ERR_UNKNOWN` and
  `ERR_NO_SUCH_USER` as the constructors `ErrUnknown` and `ErrNoSuchUser`,
  which are returned, never raised. They are distinct values by construction. It also has one pure step function per
  call. `XBody` is the method body. `XStep` wraps it in `ApiCall`, which is
  the `@api` decorator: `exception_mapper` around `create_session`.
- `Api` (`api.dfy`): the class `API`, whose fields are the three parts of the
  store. Its methods change those fields step by step, as the Python bodies
  do. Each ends in `Close`, which commits or rolls back. Each method is proved
  to have exactly the effect of its `XStep`. `Properties`
  (`properties.dfy`) then proves what each step promises.

## Model

| member | source | states |
|---|---|---|
| `Tables.ConstrainedAppend` | lovebut/lb/db/tables.py:19-23 | appending a row keeps the schema if and only if the row fits its columns and reuses neither a userid nor an email |
| `Tables.ConstrainedUpdate` | lovebut/lb/db/tables.py:19-23 | rewriting the non-key columns of one row keeps the schema if and only if the new row fits its columns |
| `Tables.ConstrainedRemove` | lovebut/lb/db/tables.py:19-23 | deleting a row never breaks the schema |
| `Orm.All` | lovebut/lb/core/api.py:93-95 | a filtered query returns exactly the matching rows of the table, and no more rows than the table has |
| `Orm.First` | lovebut/lb/core/api.py:96-98 | `matches[0]` is a matching row with no matching row before it; there is none exactly when no row matches |
| `Orm.FirstOfAll` | lovebut/lb/core/api.py:119-123 | a query's result is empty if and only if there is no first match, and its element 0 is the table's first matching row |
| `Orm.AtMostOneMatch` | lovebut/lb/db/tables.py:19-22 | when no two rows can both match, a query returns at most one row |
| `Orm.UseridSelectsAtMostOne` | lovebut/lb/db/tables.py:19 | because of the primary key, a query by userid returns at most one row |
| `Orm.EmailSelectsAtMostOne` | lovebut/lb/db/tables.py:22 | because of the unique email, the login query by identity and email returns at most one row |
| `Orm.AllAppend` | lovebut/lb/core/api.py:119-120 | filtering the concatenation of two tables concatenates their filtered parts, in order |
| `Orm.One` | lovebut/lb/core/api.py:133-135 | `.one()` raises `NoResultFound` if and only if nothing matches and `MultipleResultsFound` if and only if several rows match; otherwise it gives the only matching row |
| `Orm.Flush` | lovebut/lb/db/tables.py:19-23 | a flush succeeds if and only if the table meets every declared constraint; otherwise it raises `IntegrityError` or `DataError` |
| `Facade.DescriptionIdentifiesError` | lovebut/lb/core/api.py:58-73 | the descriptions of the two sentinels ("Internal error", "No such user") are equal if and only if the sentinels are the same |
| `Facade.ErrUnknownMeansFailure` | lovebut/lb/core/api.py:17-33 | when the body never answers `ERR_UNKNOWN` itself, the wrapped call answers `ERR_UNKNOWN` if and only if the body raised or the commit flush failed |
| `Facade.BodiesNeverAnswerUnknown` | lovebut/lb/core/api.py:86-166 | none of the five method bodies returns `ERR_UNKNOWN` itself; they only ever return a value or `ERR_NO_SUCH_USER` |
| `Facade.UnknownOnlyOnFailure` | lovebut/lb/core/api.py:17-52 | each of `login`, `unsubscribe`, `change_screenname`, `get_user` and `love` answers `ERR_UNKNOWN` if and only if its body raised or its commit failed |
| `Facade.CreateSession` | lovebut/lb/core/api.py:44-51 | the body's changes are kept if and only if the body returned and its commit flush succeeds; otherwise the store is rolled back to its state before the call |
| `Facade.ApiCall` | lovebut/lb/core/api.py:35-52 | the wrapped call never propagates a failure: either it gives the body's answer and new state, or it gives `ERR_UNKNOWN` and the old state; it keeps the store invariant |
| `Facade.LoginIssuesIds` | lovebut/lb/db/tables.py:19 | every row `login` touches or adds has an id already drawn from `user_seq` |
| `Facade.LoginStep` | lovebut/lb/core/api.py:86-112 | `login` keeps the store invariant, and its only error is `ERR_UNKNOWN`, which leaves the store unchanged |
| `Facade.UnsubscribeStep` | lovebut/lb/core/api.py:114-125 | `unsubscribe` keeps the store invariant; on success it answers `True` and the table has exactly one row fewer |
| `Facade.ChangeScreennameStep` | lovebut/lb/core/api.py:127-137 | `change_screenname` keeps the store invariant and never changes the counter, the outbox or the number of rows |
| `Facade.GetUserStep` | lovebut/lb/core/api.py:139-152 | `get_user` never changes the store |
| `Facade.LoveStep` | lovebut/lb/core/api.py:154-166 | `love` keeps the store invariant and never changes the table or the counter |
| `Properties.LoginExisting` | lovebut/lb/core/api.py:93-100 | for an existing identity and email, exactly one row matches; `login` returns that row's stored userid and screenname, whatever screenname was supplied, clears that row's `unsubscribed`, and changes no other row or field |
| `Properties.LoginNew` | lovebut/lb/core/api.py:101-112 | with no match, `login` succeeds if and only if the new row fits and its email is not taken; it then appends exactly one row with the given identity, email and screenname, `unsubscribed` false and a userid no row had, and returns its details; otherwise it answers `ERR_UNKNOWN` with the store unchanged |
| `Properties.LoginAgain` | lovebut/lb/core/api.py:93-112 | a second `login` with the same identity and email, whatever the screenname, returns the same details and leaves the store as the first one left it |
| `Properties.UnsubscribeDeletesFirst` | lovebut/lb/core/api.py:119-125 | with no row for the identity, `unsubscribe` answers `ERR_NO_SUCH_USER` and changes nothing; otherwise it deletes exactly the first such row, answers `True`, and keeps every other row in order, including the other rows with that identity |
| `Properties.UnsubscribedUserIsGone` | lovebut/lb/core/api.py:119-125 | after `unsubscribe` deletes a row, `get_user` on its userid answers `ERR_NO_SUCH_USER` |
| `Properties.ChangeScreennameUpdatesOne` | lovebut/lb/core/api.py:132-137 | on an absent userid, `change_screenname` answers `ERR_NO_SUCH_USER` and changes nothing; on a present one it changes only that row's screenname; a screenname wider than 20 fails the commit with `ERR_UNKNOWN` and changes nothing; `.one()` never finds several rows |
| `Properties.GetUserSeesNewScreenname` | lovebut/lb/core/api.py:132-152 | after a successful `change_screenname`, `get_user` on that userid succeeds and reports the new screenname |
| `Properties.GetUserReads` | lovebut/lb/core/api.py:144-152 | `get_user` answers `ERR_NO_SUCH_USER` if and only if no row has the userid; otherwise it returns that row's userid, identity, email and screenname; the store is unchanged |
| `Properties.LoveSendsOne` | lovebut/lb/core/api.py:159-166 | on an absent userid, `love` answers `ERR_NO_SUCH_USER` and sends nothing; otherwise it sends exactly one message carrying the row's email, the given text and the row's identity, and leaves the table unchanged |
| `Api.API.constructor` | lovebut/run.py:17-18 | start-up, `API()` followed by `create_db()` on a fresh engine, gives an empty table, `user_seq` at 1, no sends, and a store that satisfies the invariant |
| `Api.API.Close` | lovebut/lb/core/api.py:44-51 | the end of every wrapped call: commit, or roll back and answer `ERR_UNKNOWN`, exactly as `ApiCall` specifies |
| `Api.API.Login` | lovebut/lb/core/api.py:86-112 | keeps the invariant; its answer and new state are those of `LoginStep` |
| `Api.API.Unsubscribe` | lovebut/lb/core/api.py:114-125 | keeps the invariant; its answer and new state are those of `UnsubscribeStep` |
| `Api.API.ChangeScreenname` | lovebut/lb/core/api.py:127-137 | keeps the invariant; its answer and new state are those of `ChangeScreennameStep` |
| `Api.API.GetUser` | lovebut/lb/core/api.py:139-152 | its answer is that of `GetUserStep`, and the state is unchanged |
| `Api.API.Love` | lovebut/lb/core/api.py:154-166 | keeps the invariant; its answer and new state, including the outbox, are those of `LoveStep` |

## Left out

- Session lifetime and commit/rollback live in `lb/db/creation.py`, which is not part of this model. It is an assumption that a call that raises leaves the whole store as it was before the call. On PostgreSQL a sequence value drawn by a failed insert stays consumed; the model does not advance `nextId` on failure.
- `Orm.Flush`: the model rejects every value wider than its column. Engines differ here. SQLite accepts longer values. PostgreSQL silently truncates a value whose extra characters are all spaces, and rejects the others. MySQL does the same in strict mode; outside strict mode it truncates every over-long value with a warning. The model does not capture any truncation.
- `Properties.ChangeScreennameUpdatesOne`: its answer `ERR_UNKNOWN` for a screenname over 20 characters assumes an engine that rejects it. On an engine that truncates trailing spaces, a screenname such as "bob" followed by 20 spaces would be stored truncated and the call would succeed. `Properties.LoginNew` has the same assumption for its width condition.
- `Properties.LoginNew`: the new row's userid `nextId` assumes an engine that honours the `user_seq` sequence, so a deleted row's userid is never issued again. An engine without sequences, such as SQLite, ignores it and makes `userid` the rowid, which is one more than the largest userid in use; after the row with the largest userid is deleted, the next new login can be given that same userid, and an old link to that userid then reaches the new user. Such reuse is not modelled.
- `Properties.LoginAgain`: each facade call is modelled as one atomic step with no other request interleaved. The views build an `API()` per request, and requests run concurrently. Two simultaneous first logins with the same identity and email can both find no row and both insert. The unique email then fails one of them with `ERR_UNKNOWN`. Concurrency and the database's isolation level are not modelled.
- `Orm.Matches`: matching on identity, email and userid, and the unique email, use exact character-by-character equality. An engine with a case-insensitive collation would match and collide differently.
- `Orm.All`: row order is insertion order. SQL gives no order without `ORDER BY`, so "first match" in the source depends on the engine.
- Storage faults other than constraint violations, such as a lost connection or a failed session: they are not inputs of the model. `Facade.ApiCall` states what any raised exception becomes (`ERR_UNKNOWN`, store unchanged).
- `Facade.ApiCall` rollback also restores the outbox. In the source a sent message cannot be recalled. This never matters, because `love` changes no row and so its commit cannot fail after the send.
- `create_db` is table creation against the engine and is not modelled as an operation. `Api.API.constructor` stands for start-up, `API()` then `create_db()` on a fresh engine, and so starts from an empty store. Running `create_db` again on an existing database is not modelled.
- Logging of exceptions and tracebacks in `exception_mapper`: it has no effect on results.
- `send_message` rendering, the unsubscribe URL, Flask-Mail and the background thread: a send is modelled only as an appended `Sent(recipient, message, identity)` record.
- The DTO module `lb/core/dtos.py` is not part of this model. `UserDetails` carries userid and screenname, the two fields the views read from it. `LoginRequest` and `ScreennameRequest` carry the fields `login` and `change_screenname` read.
- Null inputs and non-integer userids: request fields are non-null strings and userids are integers. The views pass the userid as a query-string string, and the mapper's coercion of it is not modelled.
- The success values follow the source: `login` returns details, `unsubscribe` returns `True`, `get_user` returns a `DetailedUser`, and `change_screenname` and `love` return Python `None`, modelled as `Ok(())`.
- Views, forms, the admin console and application start-up are outside the facade.
