# Lar Maria de Nazaré basket backend — a Dafny model

The backend keeps the food-basket inventory of a charity. Donors' baskets
come in as donations. Baskets go out as distributions to registered
families. Every `/api` route except login sits behind a JWT guard. This project
models four parts of it and proves their rules:

- **The inventory ledger** (`app/routes/donations.py`,
  `app/routes/distributions.py`, `app/routes/dashboard.py`):
  - the request checks and the rows that requests become;
  - the stock, which is the total donated minus the total distributed;
  - the stock check before a distribution;
  - the `Z` rewrite of a distribution's date;
  - the newest-first listings;
  - the dashboard.
- **The family registry** (`app/routes/families.py`):
  - creation, lookup and listing;
  - update, which rewrites every column and replaces the whole child list;
  - deletion, which cascades to the family's children and distributions.
- **Access control** (`app/utils/auth.py`, `app/routes/auth.py`):
  - password hashing;
  - token issue and expiry;
  - the `Authorization` header parsing of `token_required` and its three refusals;
  - login, `/me` and logout.
- **Transactions and constraints** (`app/utils/database.py`):
  - each request commits on normal exit and rolls back on an exception;
  - `init_db` seeds the administrator only once;
  - usernames are unique;
  - both `family_id` foreign keys cascade on delete.

Module layout:

- `common.dfy` (`Common`):
  - request members seen the way Python's `dict.get` sees them (`Field`: absent, `null` or present);
  - the failures and their HTTP statuses;
  - sequence helpers: filter, reverse and sum.
- `schema.dfy` (`Schema`):
  - the rows of the five tables;
  - the invariant `Consistent` that every committed state keeps: unique usernames, foreign keys that hold, family ids that increase in insertion order and stay below the id generator, and family, donation and distribution creation times that increase in insertion order and stay below the clock. The ids of children, donations, distributions and users are not constrained by it.
- `ledger.dfy` (`Ledger`), `dashboard.dfy` (`Dashboard`) and `registry.dfy` (`Registry`): the pure parts of the route files.
- `access.dfy` (`Access`) and `session.dfy` (`Session`): `app/utils/auth.py` and `app/routes/auth.py`.
- `store.dfy` (`Store`):
  - the database as one object, class `Store.Store`, whose handlers change its tables in place;
  - every handler keeps `Consistent` and ends in a committed new state or in the unchanged old one.
- `api.dfy` (`Api`): the guarded dispatch of a request to its handler, with the reply's status; `FamilyAnswer`/`LedgerAnswer` and `FamilyAfter`/`LedgerAfter` give each route's reply and the tables it leaves, from the tables it starts with.
- `clients.dfy` (`Clients`): fixed request sequences against a fresh database and what they must answer.

The outside world enters as follows:

- **bcrypt and PyJWT** are the `Crypto` value of `Access`. Its functions are unknown. The lemmas that need them require `Sound`, which holds three laws:
  - a password checks against its own hash;
  - a signed token verifies under the same key;
  - a token is non-empty text without spaces.
- **The UUID generator** is the counter `nextId`.
- **`CURRENT_TIMESTAMP`** is the counter `clock`, which ticks once per committed create or update request, however many rows it writes (a delete and `init_db` leave it alone).
- **The wall-clock time** is the parameter `now`, in seconds.

Where the system's documented behaviour and its code differ, the model
follows the code:

- **Negative quantities.**
  - The request checks are truthiness only, so a negative quantity is accepted.
  - A negative donation lowers the stock.
  - A negative distribution passes the stock check and raises the stock.
  - So the stock stays non-negative only while no negative quantity is recorded.
- **Unknown `familyId`.** The distribution insert fails on the foreign key, after the stock check, with a 500.
- **Seeding** checks for a user named `admin`, not for an empty users table.
- **Header refusals.**
  - A missing header and a header without a space give different messages.
  - An expired token and a forged one give the same message.

## Model

| member | source | states |
|---|---|---|
| `Schema.UniqueCountAtMostOne` | app/utils/database.py:30 | with unique usernames, no name occurs more than once in the users table |
| `Schema.CascadeKeepsReferences` | app/utils/database.py:55-88 | after a family is deleted with its children and distributions, every remaining `family_id` still names a family |
| `Schema.FamiliesNotIds` | app/routes/families.py:280 | `DELETE FROM families WHERE id = ...` removes exactly that id from the set of family ids |
| `Schema.ReplaceFamilyRow` | app/routes/families.py:206-226 | rewriting a family row in place keeps its id and creation time, so the set of ids and the insertion orderings are unchanged |
| `Ledger.EmptyLedger` | app/routes/distributions.py:54-60 | both `COALESCE(SUM(quantity), 0)` totals are 0 on empty tables, so an empty ledger has no stock |
| `Ledger.DonationRaisesStock` | app/routes/donations.py:49-62 | appending one donation raises the total donated, and the stock, by exactly its quantity |
| `Ledger.DistributionLowersStock` | app/routes/distributions.py:68-81 | appending one distribution raises the total distributed by its quantity and lowers the stock by the same amount |
| `Ledger.StockStaysNonNegative` | app/routes/distributions.py:60-63 | a distribution that passes `available < quantity` leaves a non-negative stock; a donation of non-negative quantity keeps a non-negative stock non-negative |
| `Ledger.CascadeReturnsStock` | app/utils/database.py:78-88 | deleting a family's distributions by cascade raises the stock by exactly the sum of their quantities |
| `Ledger.CascadeNeverLowersStock` | app/utils/database.py:81 | with no negative distribution quantities, deleting a family never lowers the stock |
| `Ledger.DonationRow` | app/routes/donations.py:49-59 | the inserted row exists exactly when `cpf` and `phone` are not `null` and the quantity fits `INTEGER`; it holds the request's name and quantity; a present `cpf`, `phone` or `type` is stored as given, a missing `cpf` or `phone` is `''`, a missing `type` is `'entry'` and a `null` `type` is `NULL` |
| `Ledger.ReplaceZRemovesZ` | app/routes/distributions.py:66 | `replace('Z', '+00:00')` leaves no `Z`, changes text without one not at all, and removes nothing |
| `Ledger.ReplaceZConcat` | app/routes/distributions.py:66 | the rewrite distributes over concatenation |
| `Ledger.UtcDesignator` | app/routes/distributions.py:66 | a date ending in the UTC designator `Z` gets the offset `+00:00` in its place and is otherwise unchanged |
| `Ledger.EffectiveDate` | app/routes/distributions.py:66 | the local time exactly when `date` is falsy, otherwise the rewritten text, which has no `Z` |
| `Ledger.DistributionRow` | app/routes/distributions.py:66-78 | the inserted row exists exactly when both names are present and not `null`, `familyId` names a family and the quantity fits `INTEGER`; it carries the request's family id, both names, quantity and effective date |
| `Ledger.ListDonations` | app/routes/donations.py:15-31 | every donation once, in reverse insertion order |
| `Ledger.ListDistributions` | app/routes/distributions.py:16-35 | every distribution once, in reverse insertion order |
| `Ledger.ListingsNewestFirst` | app/routes/distributions.py:16-20 | over rows inserted with growing `created_at`, both listings hold the same rows and are strictly `ORDER BY created_at DESC` |
| `Dashboard.GetStats` | app/routes/dashboard.py:12-58 | `totalFamilies` is the number of families; `totalDonations` and `totalDistributions` are the two quantity sums; `availableBaskets` is total donated minus total distributed, which is the stock that `create_distribution` checks; the recent list is the first min(5, n) of the newest-first listing |
| `Dashboard.RecentAreNewest` | app/routes/dashboard.py:31-37 | the recent list is strictly newest first, and every distribution left out is older than every one shown |
| `Registry.ChildRows` | app/routes/families.py:101-116 | one child row per submitted child, in submission order, with the family's id, the child's name and age, and consecutive fresh ids |
| `Registry.FamilyRow` | app/routes/families.py:78-96 | the row holds the request's name; each optional member is stored as given when present and as `NULL` when `null`; when missing, a text member becomes `NULL`, `numberOfChildren` becomes 0 and each of the three booleans becomes false |
| `Registry.FamilyIndex` | app/routes/families.py:148-156 | a position is found exactly when a family has the id, and the family there has it |
| `Registry.GetFamily` | app/routes/families.py:140-190 | not-found exactly for an unknown id; otherwise that family with exactly its children |
| `Registry.ListFamilies` | app/routes/families.py:8-59 | every family, newest first, each with exactly its own children |
| `Registry.FamiliesNewestFirst` | app/routes/families.py:17-23 | over families inserted with growing `created_at`, the listing holds every family exactly once and is strictly `ORDER BY created_at DESC` |
| `Registry.ReplacedChildren` | app/routes/families.py:233-249 | after the children of one family are deleted and the new rows inserted, that family has exactly the new rows and every other family keeps its own |
| `Registry.AppendedChildren` | app/routes/families.py:101-116 | inserting a new family's children gives it exactly those rows and changes no other family's children |
| `Access.VerifyHashed` | app/utils/auth.py:10-16 | under `Sound`, `verify_password(p, hash_password(p))` holds for every salt |
| `Access.JwtDecode` | app/utils/auth.py:29-30 | a bad token exactly when the signature check fails; otherwise the signed claims, valid exactly while the current time is before their `exp` (section 4.1.4 of RFC 7519) and expired from `exp` on |
| `Access.DecodeToken` | app/utils/auth.py:27-34 | gives the claims exactly when the signature checks and the token has not expired; the expired and invalid errors both become `None` |
| `Access.TokenRoundTrip` | app/utils/auth.py:18-34 | a token from `generate_token` decodes to exactly its user id, username and issue time plus seven days until then, and to `None` from then on |
| `Access.Split` | app/utils/auth.py:46 | `split(' ')` gives at least one piece, no piece holds a space, and there is exactly one piece when the text has no space |
| `Access.JoinSplit` | app/utils/auth.py:46 | joining the pieces of `split(' ')` with single spaces gives the header back |
| `Access.SplitJoin` | app/utils/auth.py:46 | splitting space-free pieces joined by single spaces gives the same pieces |
| `Access.HeaderTokenCases` | app/utils/auth.py:43-48 | `split(' ')[1]` fails exactly when the header has no space; after any scheme word it is the second word; a scheme followed by two spaces yields an empty token |
| `Access.Guard` | app/utils/auth.py:36-61 | refusals are 401; no header or an empty second word means "Token não fornecido", a header without a space means "Token inválido", and a non-empty word that does not decode as valid means "Token inválido ou expirado"; a request is admitted exactly when the second word is non-empty and decodes as valid, and then with those claims |
| `Access.ExpiredLooksLikeForged` | app/utils/auth.py:54-56 | an expired token and an invalid one are refused with the same failure |
| `Access.IssuedTokenAdmits` | app/utils/auth.py:18-61 | a token from `generate_token`, after any scheme word, admits requests as its user for seven days and is refused afterwards |
| `Session.FindUser` | app/routes/auth.py:21-26 | the user found has the requested name; nothing is found exactly when no user has that name |
| `Session.Login` | app/routes/auth.py:7-46 | a missing or empty username or password is refused with 400 before any lookup; a complete request succeeds exactly when the named user exists and the password checks against its hash, and otherwise gets the single invalid-credentials refusal; success means the stored user exists, the password checks, and the reply is a token for that user's id and name and echoes exactly those |
| `Session.RejectionsLookAlike` | app/routes/auth.py:28-32 | an unknown username and a wrong password give the same refusal, and a complete request fails in no other way |
| `Session.LoginTokenAdmits` | app/routes/auth.py:34-43 | the token of a successful login admits requests as the stored user for seven days |
| `Session.SeededAdminLogsIn` | app/utils/database.py:90-98 | once seeding has added the administrator to a table without one, `admin`/`admin123` logs in as that user |
| `Store.Store.constructor` | app/utils/database.py:21-88 | an empty database is consistent and has no stock |
| `Store.Store.Rollback` | app/utils/database.py:15-17 | rollback restores every table and generator to the state the transaction started from |
| `Store.Store.InitDb` | app/utils/database.py:90-98 | the administrator is added with a hash of the default password only when no user of that name exists; afterwards exactly one exists, and a second run changes nothing |
| `Store.Store.InsertChildren` | app/routes/families.py:101-116 | the loop succeeds exactly when every child has a name and an age; it then appends exactly the rows of `ChildRows` and touches no other table |
| `Store.Store.CreateDonation` | app/routes/donations.py:36-76 | an incomplete request gets 400 and an insert that raises gets 500, both with nothing written; otherwise exactly one row is appended, ids and clock advance, and the stock rises by the quantity |
| `Store.Store.CreateDistribution` | app/routes/distributions.py:40-95 | incomplete gets 400; a quantity above the stock gets 400 with the available amount; an insert that raises gets 500; all three write nothing; otherwise exactly one row is appended and the stock falls by the quantity and stays non-negative |
| `Store.Store.CreateFamily` | app/routes/families.py:64-138 | a missing or empty name gets 400; a child that cannot be inserted rolls the family back; otherwise one family with a fresh id and its children are appended and nothing else changes |
| `Store.Store.UpdateFamily` | app/routes/families.py:195-270 | a missing body gets 500; an unknown id gets not-found; a missing or `null` name gets 500; each of these changes nothing; otherwise the row is rewritten from the body, its creation time kept, and its children replaced by the submitted ones |
| `Store.Store.DeleteFamily` | app/routes/families.py:272-292 | not-found exactly for an unknown id, with nothing changed; otherwise the family, its children and its distributions go, and the stock rises by what those distributions had taken |
| `Store.UpdatedFamilyConsistent` | app/routes/families.py:206-249 | committing a rewritten family row with its new children keeps the invariant and the set of family ids |
| `Store.ChildrenAfterUpdate` | app/routes/families.py:233-249 | after an update the family has exactly the submitted children, and every other family keeps its own |
| `Store.NewFamilyConsistent` | app/routes/families.py:78-118 | committing a new family with its children keeps the invariant |
| `Store.ChildrenAfterCreate` | app/routes/families.py:98-116 | the new family has exactly the inserted children, and no existing family's children change |
| `Store.CascadeConsistent` | app/utils/database.py:55-88 | the delete cascade keeps the invariant |
| `Store.ChildrenAfterDelete` | app/utils/database.py:58 | after a delete the family has no children, and every other family keeps its own |
| `Api.StatusOf` | app/routes/distributions.py:40-95 | every failure answers with its own error status, 400 or above; every success answers 200 or 201 |
| `Api.Serve` | app/utils/auth.py:36-61 | each route but login passes the guard first, and a refused request gets 401 with nothing changed; read routes change nothing and a failed write changes nothing; login answers as `Login`; an admitted request gets `Answer` for the claims the guard admitted and leaves exactly the tables `After` gives; a donation changes the stock by its quantity, a distribution lowers it by its quantity and leaves it non-negative, a delete raises it by the family's distributions, and every other route keeps a non-negative stock non-negative |
| `Api.Answer` | app/routes/auth.py:48-63 | `/me` echoes the admitted claims' id and username, logout answers with its message, and no answer past the guard is a 401 |
| `Api.ServeAdmitted` | app/utils/auth.py:59 | the admitted request's handler runs: the reply is exactly `Answer` and the new tables exactly `After` of the tables it started with, a failure changes nothing, and the stock moves as `StockMoves` says |
| `Api.FamilyAnswer` | app/routes/families.py:64-292 | a family handler's refusal is never the guard's 401 |
| `Api.LedgerAnswer` | app/routes/distributions.py:40-95 | a ledger or dashboard handler's refusal is never the guard's 401 |
| `Api.ServeCreateFamily` | app/routes/families.py:64-138 | `POST /api/families` answers `FamilyAnswer` of the starting tables (a missing name gets 400, an uninsertable child 500, otherwise the new row and child rows) and leaves exactly `FamilyAfter`: the family row and its child rows appended, the id generator past them and the clock one further; the stock is unchanged |
| `Api.ServeUpdateFamily` | app/routes/families.py:195-270 | `PUT` answers `FamilyAnswer` (500 without a body, 404 for an unknown id, 500 for a missing name or an uninsertable child, otherwise the rewritten row with its kept creation time and new children) and leaves exactly `FamilyAfter`: the row rewritten in place and the family's children replaced by the new rows; the stock is unchanged |
| `Api.ServeDeleteFamily` | app/routes/families.py:272-292 | `DELETE` answers the deleted message exactly for a known id and 404 otherwise, leaves exactly `FamilyAfter` (the family, its children and its distributions gone), and the stock rises by that family's distributions |
| `Api.CreateAnswered` | app/routes/families.py:64-138 | the results and new tables `Store.CreateFamily` promises, read on the starting tables, are the answer of `FamilyAnswer` and the tables of `FamilyAfter` for a create |
| `Api.UpdateAnswered` | app/routes/families.py:195-270 | the results and new tables `Store.UpdateFamily` promises are the answer of `FamilyAnswer` and the tables of `FamilyAfter` for an update |
| `Api.ServeFamilies` | app/routes/families.py:8-292 | the family routes answer exactly `FamilyAnswer` and leave exactly `FamilyAfter` of the starting tables; reads change nothing, a failure changes nothing, and only a delete changes the stock |
| `Api.ServeLedger` | app/routes/distributions.py:40-95 | the ledger and dashboard routes answer exactly `LedgerAnswer` of the starting tables (400 for incomplete data, 400 with the available amount for too few baskets, 500 for a failed insert, otherwise the new row) and leave exactly `LedgerAfter` (the new row appended); reads change nothing, a failure changes nothing, the dashboard shows the current stock, and the stock moves as `StockMoves` says |
| `Api.ServeCreateDonation` | app/routes/donations.py:36-76 | `POST /api/donations` answers `LedgerAnswer` and leaves `LedgerAfter`: the donation row appended with the next id and clock value, or nothing changed on a 400 or 500; the stock rises by the donated quantity |
| `Api.DonationAnswered` | app/routes/donations.py:36-76 | the results and new tables `Store.CreateDonation` promises are the answer of `LedgerAnswer` and the tables of `LedgerAfter` |
| `Api.ServeCreateDistribution` | app/routes/distributions.py:40-95 | `POST /api/distributions` answers `LedgerAnswer` and leaves `LedgerAfter`: the distribution row appended after the stock check, or nothing changed on a 400 or 500; a created distribution lowers the stock by its quantity and leaves it non-negative |
| `Api.DistributionAnswered` | app/routes/distributions.py:40-95 | the results and new tables `Store.CreateDistribution` promises are the answer of `LedgerAnswer` and the tables of `LedgerAfter` |
| `Api.RefusalWritesNothing` | app/utils/database.py:8-19 | whenever a handler refuses a request, the tables it leaves are the tables it found |
| `Api.AfterMovesStock` | app/routes/distributions.py:54-81 | the reference answer and tables move the stock as `StockMoves` says: a donation adds its quantity, a distribution that passed the check takes its quantity and leaves the stock non-negative, a delete gives back the family's distributions |
| `Common.NatTextRoundTrip` | app/routes/distributions.py:63 | the decimal text of a natural number is non-empty, starts with a digit and reads back as that number |
| `Common.IntTextRoundTrip` | app/routes/distributions.py:63 | the decimal text of any integer, with its minus sign, reads back as that integer |
| `Common.InsufficientShowsAvailable` | app/routes/distributions.py:62-63 | the insufficient-baskets message is "Cestas insuficientes. Disponível: " followed by text that reads back as the available amount |
| `Clients.RestockAndEmpty` | app/routes/distributions.py:62-63 | donations of 20 and 5 give a stock of 25; because the check is strict, a distribution of 25 is accepted and leaves 0; one more basket is refused with "available 0" |
| `Clients.TwoRequestsForSix` | app/routes/distributions.py:54-63 | with a stock of 10, one request for 6 is served and the next is refused with 4 available, and 4 remain |
| `Clients.DeleteReturnsBaskets` | app/utils/database.py:81 | deleting a family that took 4 of 10 baskets brings the stock back to 10 and leaves no distribution |
| `Clients.SeedTwice` | app/utils/database.py:90-98 | `init_db` twice on an empty database leaves exactly one user, the administrator |
| `Clients.LogIn` | app/routes/auth.py:7-46 | login sent to the application is not guarded, answers as `Login` and leaves the users table as it was |
| `Clients.AskMe` | app/routes/auth.py:48-57 | `/me` sent with a header the guard admits answers with the admitted user's id and name |
| `Clients.AdminSession` | app/routes/auth.py:7-57 | after seeding, `admin`/`admin123` logs in and `/me` with the token answers as the administrator |

## Left out

- **Flask plumbing.**
  - Routing, `request.get_json`, `jsonify`, CORS and the health and index routes are not modelled.
  - A body that is not a JSON object is not modelled, nor a member of the wrong JSON type. A string quantity, for example, would raise `TypeError`.
  - The snake_case to camelCase renaming of the response members is not modelled.
  - `Api.Reply` stands for the JSON body.
- **The exception text of a 500.** `Common.Message` keeps the handler's prefix only. `str(e)` comes from psycopg2 and is not modelled.
- **psycopg2 and SQL.** The tables are sequences in insertion order. The DDL statements themselves are not modelled. Only the constraints the handlers rely on are kept:
  - `NOT NULL`;
  - `UNIQUE`;
  - the `INTEGER` range of the ledger quantities;
  - the two foreign keys with `ON DELETE CASCADE`.
- **Column lengths.** The `VARCHAR` lengths are not checked, so an over-long text is stored instead of raising.
- `Registry.FamilyRow` and `Registry.ChildRows`: the `INTEGER` range of `number_of_children` and of a child's `age` is not checked. Out-of-range values are stored instead of raising a 500.
- **Identifiers.**
  - UUIDs are natural numbers from a counter, so a path id that is not a valid UUID (a 500 in PostgreSQL) is not modelled.
  - An empty-string `familyId` is falsy in Python. The model has no such id, so `Absent` stands for it.
- **Timestamps.**
  - `created_at` and `updated_at` are values of a counter that ticks once per committed create or update request, whatever the number of child rows it writes. Children's timestamps are not modelled. `users.created_at` is not modelled.
  - `datetime.now()` and `utcnow()` are the parameter `now`.
  - `fromisoformat` parsing of the rewritten date is not modelled. A malformed date, which raises `ValueError` and gives a 500, is accepted.
  - ISO formatting of the response timestamps is not modelled.
- **bcrypt and PyJWT internals.**
  - These are foreign libraries. Only the round-trip laws of `Access.Sound` are assumed, as a precondition.
  - The HS256 algorithm list is not modelled.
  - A `checkpw` that raises on a malformed stored hash, giving a 500 on login, is not modelled.
  - A payload without claims, which `if not payload` would also refuse, cannot occur in the model.
- **Concurrency.**
  - The stock check and the insert of `create_distribution` take no lock, so two concurrent requests can both pass the check.
  - The model runs requests one at a time.
  - `Ledger.StockStaysNonNegative` and `Store.Store.CreateDistribution` state the non-negative stock for sequential execution only.
- **The order of `SELECT ... FROM children WHERE family_id = ...`.** It has no `ORDER BY`. The model takes insertion order.
- **Sum width.** `SUM` over `INTEGER` is `bigint` in PostgreSQL and is modelled as unbounded.
- **Configuration.** `SECRET_KEY` comes from the environment once at start-up, as the key of `Access.Config`; its built-in fallback value is not modelled.
