# Advertisement service: access-control model

A Dafny model of the Flask advertisement service in `app.py`. Users register
and log in. A logged-in user posts advertisements and may delete only their own.
Anyone may list or fetch advertisements.

The model has five files:

- `wrappers.dfy`: the `Option` type.
- `security.dfy`: the password-hash library, kept opaque. A digest is a symbolic
  salted hash. `CheckPasswordHash` accepts exactly the password the digest was
  made from. The random salt is a parameter.
- `models.dfy`: the rows of the `user` and `advertisement` tables, `to_dict`, and
  the read-only scans the queries perform. These are `query.all()` in id order
  and `filter_by(username=...).first()`.
- `service.dfy`: the class `AdService.App`. Its fields are the user table
  `users: map<nat, User>`, the advertisement table `ads: map<nat, Advertisement>`,
  the session slot `session: Option<nat>`, and the next primary key of each table.
  Each route that changes state is a method returning a `Response` (status code and
  body). The read-only routes are functions.
- `scenarios.dfy`: client request sequences. Each proves an end-to-end consequence of
  the handlers' contracts:
  - register then log in;
  - post then fetch;
  - post, then a delete by another user;
  - post, then a delete by the owner.

`App.Valid()` is the state invariant every handler keeps:

- every key is below its table's next id, and advertisement ids stay within
  SQLite's 64-bit INTEGER range (at most 2^63-1);
- user names are unique (the `unique=True` column);
- every advertisement's `owner_id` is a user id, i.e. referential integrity;
- the session, when set, names an existing user.

Referential integrity holds because the owner is always the logged-in caller and no
operation removes users.

The code decides the behaviour in these cases:

- `login_required` runs before the handler body. So an unauthenticated
  `DELETE /advertisement/<id>` answers 401 even when the id does not exist.
- Nothing rejects an empty title or description. SQLite does not enforce the
  `String(100)`/`String(500)` caps. So any strings are stored.
- A duplicate user name makes `db.session.commit()` raise an uncaught
  `IntegrityError`. The model answers 500 (`ServerError`) and adds no user.
- The `<int:id>` route converter has no upper bound. sqlite3 cannot bind an id above
  2^63-1 and raises `OverflowError`, which nothing catches. So `GET` and (for a
  logged-in caller) `DELETE` of such an id answer 500 (`ServerError`), not 404.
- A caller without a session gets werkzeug's default 401 page, not a JSON message.
  The model writes it as `ErrorPage("Unauthorized")`.

## Model

| member | source | states |
|---|---|---|
| Security.GeneratePasswordHash | app.py:26-29 | the digest of a password accepts that password and no other |
| Models.NewUser | app.py:101-102 | a new user row keeps the given user name, and its stored digest accepts exactly the given password (`set_password`, then `check_password`) |
| Models.IdsBelow | app.py:62 | the rows `query.all()` returns: only keys of the table, strictly ascending (so no duplicates), and every key below the bound |
| Models.IdsBelowCount | app.py:62 | when the bound exceeds every key, the scan has exactly as many entries as the table has rows |
| Models.User.CheckPassword | app.py:28-29 | a stored digest accepts a password exactly when hashing that password with the stored salt reproduces the digest |
| Models.Advertisement.ToDict | app.py:42-48 | the dict carries the given id, and it loses only the owner: the row is the dict's title, description and creation date with its owner id |
| Models.ToDicts | app.py:65 | the comprehension has one entry per id, and entry i is `to_dict` of row ids[i]: id, title, description and creation date, with the owner left out |
| Models.ListAll | app.py:62-65 | the listing has as many entries as the table has rows; each entry is `to_dict` of a row with that id; ids strictly ascend; every row appears |
| Models.FirstWithName | app.py:110 | the result, if any, is the lowest-keyed user row with that name in range; no result means no row in range has that name |
| AdService.App.constructor | app.py:122-123 | after `create_all` on a fresh database file both tables are empty, nobody is logged in, and the invariant holds |
| AdService.App.CurrentUser | app.py:50-52 | `current_user` is the session's user id when that row exists, and otherwise nobody; under the invariant it is exactly the session slot |
| AdService.App.ShowAllAdvertisements | app.py:60-66 | status 200 with one entry per advertisement, no duplicates or omissions, in ascending id order; each entry equals the body `GET /advertisement/<id>` returns for that id |
| AdService.App.GetAdvertisement | app.py:77-83 | an id above 2^63-1 (SQLite's INTEGER range) gives 500. Otherwise: status 200 iff the id exists, answering with that row's id, title, description and creation date, and 404 "Advertisement not found" if it does not |
| AdService.App.Verify | app.py:110-111 | a returned user has the given name and a digest accepting the password; under the invariant, nobody is returned iff no user with that name accepts the password |
| AdService.App.CreateAdvertisement | app.py:68-75 | no session: 401 and nothing changes. Session user U with the rowid range used up: 500 and nothing changes. Otherwise 201, and exactly one row is added under a fresh id greater than every existing one, holding the given title, description and time with owner U. Other rows, users and session are unchanged. |
| AdService.App.DeleteAdvertisement | app.py:85-95 | no session: 401. Id above 2^63-1: 500. Missing id: 404. Existing row owned by someone else: 403. Each of these changes nothing. Row owned by the caller: 200, and exactly that id is removed. Users and session never change. |
| AdService.App.Register | app.py:98-105 | name already taken: error 500 and no user added. Otherwise 201, and exactly one user is added under a fresh id, above every existing one, with that name and the password's digest. Advertisements and session are unchanged. |
| AdService.App.Login | app.py:107-114 | status 200 iff some user has the name and a digest accepting the password; then the session holds such a user. Otherwise 401 with the same message for an unknown name and for a wrong password, and the session is unchanged. Tables never change. |
| AdService.App.Logout | app.py:116-120 | no session: 401. Otherwise 200 "Logged out successfully!" and the session is cleared. The tables never change. |
| Scenarios.NewestId | app.py:60-66 | right after a post, the last entry of `GET /advertisements` is the new advertisement |
| Scenarios.RegisterThenLogin | app.py:98-114 | registering an unused name and then logging in with the same password gives 201, then 200, and the session holds the new user |
| Scenarios.CreateThenGet | app.py:68-83 | while rowids remain, fetching an advertisement right after posting it returns the posted title, description and time, under an id that is new |
| Scenarios.ForeignDeleteIsForbidden | app.py:85-95 | a post by one user, a login with another user's name and password, and a delete gives 403, and the advertisement still fetches with the posted fields |
| Scenarios.CreateThenDelete | app.py:85-95 | the owner deleting a fresh advertisement gives 200, a later fetch gives 404, and the tables are back to what they were before the post |

## Left out

- Flask routing, `request.json` parsing and `jsonify`: handlers take their fields as parameters. A missing JSON key would raise `KeyError` (a 500). The model does not cover that case: the fields are always there.
- The creation date is one `Timestamp` for both `to_dict` (an ISO-8601 string) and `get_advertisement` (a raw datetime). The difference is only serialisation.
- `datetime.utcnow` reads the clock, so the time is the `now` parameter of `CreateAdvertisement`. The random salt of the hash is the `salt` parameter of `Register`.
- The werkzeug hash algorithm is a foreign library. The digest is a symbolic, collision-free salted hash.
- SQLAlchemy/SQLite persistence and transactions are not modelled. New ids come from a per-table counter starting at 1.
- AdService.App.CreateAdvertisement and AdService.App.Register promise only a fresh id above every existing one, not SQLite's exact choice. SQLite reuses the highest rowid + 1 after the top row is deleted.
- The order of `GET /advertisements` is taken to be SQLite's rowid scan order, i.e. ascending id. SQL promises no order without ORDER BY. `Scenarios.NewestId` and the scenarios that use it rely on this order.
- AdService.App.Register: user ids are not bounded by SQLite's 64-bit INTEGER range. After 2^63-1 registrations the model would keep handing out ids that SQLite cannot store; only advertisement ids carry that bound, because only they reach a query from a route parameter.
- AdService.App.CreateAdvertisement: once rowid 2^63-1 has been handed out, the model answers 500 (the database is full). SQLite instead tries random unused rowids and fails only when it finds none.
- Persistence across restarts: `create_all` keeps an existing database file and its rows. The constructor models only a fresh file.
- flask_login's cookie signing, remember-me and `login_user`/`logout_user` internals: the session is one slot that login sets and logout clears.
- One client's session is modelled, and requests do not run concurrently.
- `User.set_password` updates a field of the new, unsaved `User` object. It is modelled on values, as `NewUser`, which builds the record with its digest. The object never escapes `register`, so no aliasing is lost.
- The HTML welcome route, app bootstrap (`create_all` beyond the empty initial state, `app.run`) and `migrations/env.py` hold no logic.
- The content of werkzeug's error pages (401 and 500, and the debug traceback page) is reduced to a title.
