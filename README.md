# Pinguin ledger

A model of the banking backend's ledger. The ledger is the state behind the
Express routes of `backend/routes/` (register and login, account lookups,
transfers and their history, payments, payment history and status updates)
and the unused `Payment` helpers of `backend/models/payment.js`.

The four MySQL tables `users`, `accounts`, `transactions` and `payments` are
the fields of one class, `Backend.Ledger`. Each table is a sequence of rows in
primary-key order, next to its AUTO_INCREMENT counter. The payments code
reaches the database through `require('../db')`, the other routes through
`require('../config/database')`; neither module is part of this model, and
the model takes both to be the same database. A route that writes is a
method; each of those methods is stated against a pure function of the old
tables (`SendChecks`, `PaymentChecks`, `StatusUpdate`, `Adjust`, `Restatus`).
A route that only reads is a function with `reads this`. Every method keeps
`Valid()`:

- row `i` of each table has id `i + 1`;
- emails are unique;
- every account belongs to an existing user, and no user has two accounts;
- every transaction names two existing accounts.

Balances are integers in cents. Nothing keeps them non-negative; the lemmas
say when they stay so.

How the source's behaviour is modelled:

- **Lookups.** `SELECT ... WHERE` followed by `rows[0]` is the first matching
  row in table order. SQL guarantees no row order without `ORDER BY`; InnoDB
  returns these single-table matches in primary-key order, and the model
  assumes it does. Under `Valid` this choice matters only for the
  account-number lookups, since account numbers can collide.
- **Newest first.** `ORDER BY created_at DESC` is reverse insertion order.
- **Falsy fields.** A falsy request field is `""`, or `0` for the payment
  amount. A negative amount is truthy, so it passes the missing-fields
  check; the account and balance checks still apply to it.
- **Transactions.** A route wrapped in `beginTransaction`/`commit`/`rollback`
  is all-or-nothing: every error answer leaves all four tables and counters as
  they were.
- **`POST /send`** checks the sender's balance before it looks up the
  recipient. It answers every failure with 400, accepts any amount, and allows
  a transfer to one's own account. That transfer leaves the table as it was
  and is still logged.
- **`POST /payments`** debits every account of the caller, which is exactly
  one. On its early "Missing required fields" return the route leaves the
  transaction open without a rollback; nothing has been written at that point,
  so the model's state is unchanged there too.

Inputs instead of foreign calls:

- `Register` receives the bcrypt hash and the generated account number as
  inputs.
- `Login` receives `bcrypt.compare` as a function parameter.
- A JWT is `Token(userId)`.
- The caller's `userId` is the id the authentication middleware decoded.
  `middleware/auth` is not part of this model.

The modules follow the source's files:

| module | file | contents |
|---|---|---|
| `Rows` | `rows.dfy` | the row types and the HTTP result |
| `Query` | `query.dfy` | selection and newest-first order |
| `Balances` | `balances.dfy` | the balance UPDATE, and the total it keeps |
| `Auth` | `auth.dfy` | the `users` lookups and email uniqueness |
| `Accounts` | `accounts.dfy` | the `accounts` lookups and the two views of accounts.js |
| `Transfers` | `transfers.dfy` | transactions.js on values |
| `Payments` | `payments.dfy` | routes/payments.js and models/payment.js on values |
| `Backend` | `ledger.dfy` | the `Ledger` class and the lemmas that keep it valid |

Each table has its own first-match lookup (`UserWithEmail`, `AccountOfUser`,
`PaymentWithId`, ...) and its own dense-id predicate, rather than one generic
version taking the column as a function: a function-valued argument inside
the class invariant and the methods' contracts makes their proofs far more
expensive for the verifier.

## Model

| member | source | states |
|---|---|---|
| Auth.UserWithEmail | backend/routes/auth.js:13-16 | The lookup is None exactly when no user has that email; otherwise it is a row of `users` with that email. |
| Auth.UserWithId | backend/routes/accounts.js:10-13 | The `JOIN users u ON a.user_id = u.id` is None exactly when no user has that id; otherwise it is a row of `users` with that id. |
| Auth.UserWithIdDense | backend/routes/accounts.js:12 | When ids number the rows from 1, a `user_id` in range joins to the row it numbers. |
| Auth.RegisterKeepsEmailsUnique | backend/routes/auth.js:13-29 | A user inserted only after the duplicate check found no row keeps emails unique. |
| Auth.DuplicateBreaksEmailsUnique | backend/routes/auth.js:18-20 | Without the check, inserting a taken email breaks uniqueness, so the check is what keeps it. |
| Auth.EmailsUniqueLookup | backend/routes/auth.js:62-71 | With unique emails, `users[0]` of login's SELECT is the one user with that email. |
| Accounts.AccountOfUser | backend/routes/transactions.js:15-24 | `senderAccounts[0]` is None exactly when the caller owns no account; otherwise it is an account of the caller. |
| Accounts.AccountWithNumber | backend/routes/transactions.js:32-41 | `recipientAccounts[0]` is None exactly when no account has that number; otherwise it is an account with that number. |
| Accounts.AccountWithNumberFirst | backend/routes/transactions.js:41 | Account numbers are never checked for collisions; the recipient found is the first row with that number, and every earlier row has another. |
| Accounts.AccountWithId | backend/routes/transactions.js:94-95 | The join on an account id is None exactly when no account has that id; otherwise it is an account with that id. |
| Accounts.AccountWithIdDense | backend/routes/transactions.js:94-95 | When ids number the rows from 1, an account id in range joins to the row it numbers. |
| Balances.Adjust | backend/routes/transactions.js:44-52 | `UPDATE accounts SET balance = balance + delta WHERE ...` keeps every row's id, owner and number. It changes the balance by `delta` exactly on the rows the WHERE clause matches. |
| Balances.AdjustTotal | backend/routes/payments.js:38-41 | An update changes the sum of all balances by `delta` once per matched row. |
| Balances.TransferConserves | backend/routes/transactions.js:44-52 | The debit then the credit between two existing accounts leaves the sum of all balances as it was. |
| Balances.TransferBalances | backend/routes/transactions.js:44-52 | After a transfer, every row keeps its id and number. The sender's balance is lower by `amount`, the recipient's is higher by `amount`, and every other balance is untouched. |
| Balances.SelfTransferUnchanged | backend/routes/transactions.js:44-52 | A transfer from an account to itself leaves the table as it was. |
| Balances.TransferKeepsNonNegative | backend/routes/transactions.js:27-52 | When the sender holds at least `amount` and `amount >= 0`, no balance goes below zero. |
| Transfers.NegativeTransferOverdraws | backend/routes/transactions.js:12-52 | With no positivity check, a transfer of -500 between two empty accounts passes SendChecks, and the two updates leave the recipient at -500, so the table is no longer non-negative. |
| Balances.DebitKeepsNonNegative | backend/routes/payments.js:31-41 | When the payer holds at least `amount`, the payment debit keeps every balance non-negative, whatever the sign of `amount`. |
| Query.Select | backend/routes/transactions.js:87-98 | `SELECT ... WHERE p` returns a row exactly when the row is in the table and satisfies `p`; `SelectAscending` adds that it keeps the table's order. |
| Query.NewestFirst | backend/routes/payments.js:74-77 | `SELECT ... WHERE p ORDER BY created_at DESC` returns a row exactly when the row is in the table and satisfies `p`; `NewestFirstDescending` adds the order. |
| Query.NewestFirstDescending | backend/routes/transactions.js:99 | On a table in id order, the selected rows come back with strictly decreasing ids. |
| Transfers.TransfersOf | backend/routes/transactions.js:87-101 | The history query returns exactly the logged transfers in which the account is sender or recipient. |
| Transfers.TransfersOfNewestFirst | backend/routes/transactions.js:99 | The history comes newest first: its ids strictly decrease. |
| Transfers.SendChecks | backend/routes/transactions.js:14-41 | Every failure is 400 with one of three messages. "Sender account not found" holds exactly when the caller owns no account. "Insufficient funds" means the caller's account holds less than `amount`. "Recipient account not found" means the caller's account holds enough and no account has that number. Success yields the caller's account, holding at least `amount`, and an account with that number. |
| Transfers.SendChecksCaller | backend/routes/transactions.js:24-41 | With one account per user, `accounts[k]` is the caller's account. "Insufficient funds" holds exactly when it holds less than `amount`, so a balance equal to `amount` passes. Insufficient funds wins over an unknown recipient. A transfer starts from that account. |
| Transfers.SendMovesMoney | backend/routes/transactions.js:43-52 | After checks that pass, the transfer debits the sender and credits the recipient by `amount` and touches no other balance. It keeps the total. On a self-transfer it leaves the table as it was. With `amount >= 0` it keeps balances non-negative. |
| Payments.PaymentsOf | backend/routes/payments.js:74-77 | The history query returns exactly the caller's payments. |
| Payments.PaymentsOfNewestFirst | backend/routes/payments.js:75 | A user's payments come newest first: their ids strictly decrease. |
| Payments.PaymentWithId | backend/models/payment.js:45-49 | `payments[0]` of `SELECT * FROM payments WHERE id = ?` is None (`undefined`) exactly when no row has that id; otherwise it is a row with that id. |
| Payments.PaymentWithIdIsTheRow | backend/routes/payments.js:52-58 | When ids number the rows, the row read back by a row's id is that row. |
| Payments.Restatus | backend/routes/payments.js:101-104 | `UPDATE payments SET status = ? WHERE id = ? [AND user_id = ?]` sets the status of exactly the matching rows. It leaves every other column and every other row as it was. |
| Payments.AffectedRows | backend/routes/payments.js:106 | `affectedRows` is positive exactly when some row matches the WHERE clause. |
| Payments.RestatusNoneAffected | backend/routes/payments.js:101-108 | An update that matches no row leaves the table as it was, so the 404 answer changes nothing. |
| Payments.RestatusFound | backend/routes/payments.js:110-116 | After an update that matched, the row read back by id is the matched row with only its status replaced. |
| Payments.StatusUpdate | backend/routes/payments.js:89-123 | 400 "Status is required" holds exactly when the status is empty. 404 "Payment not found" holds exactly when the status is given and the caller owns no payment with that id. Otherwise the answer is 200 with the caller's payment, carrying the new status and nothing else changed. |
| Payments.PaymentChecks | backend/routes/payments.js:15-35 | 400 "Missing required fields" holds exactly when the type or the reference is empty or the amount is 0. 404 holds exactly when the fields are present and the caller owns no account. "Insufficient funds" means the caller's account holds less than `amount`. Success is 201, with an account of the caller holding at least `amount`. |
| Payments.PaymentChecksCaller | backend/routes/payments.js:31-35 | With one account per user, "Insufficient funds" holds exactly when the caller's account holds less than `amount`, so paying the whole balance passes. The account debited is that one. |
| Payments.PaymentDebits | backend/routes/payments.js:37-41 | A payment that passes the checks lowers the caller's balance by exactly `amount`, leaving it at 0 when that was the whole balance. It touches no other account, takes exactly `amount` out of the bank, and keeps balances non-negative. |
| Backend.RegisterKeepsConsistent | backend/routes/auth.js:26-36 | Appending a user with the next id and an unused email, and an account with the next id owned by that user, keeps every table valid. |
| Backend.AdjustKeepsValid | backend/routes/transactions.js:44-52 | A balance update keeps the account table valid. |
| Backend.TransferKeepsConsistent | backend/routes/transactions.js:43-60 | The two balance updates between existing accounts and the log row with the next id keep every table valid. |
| Backend.PaymentKeepsConsistent | backend/routes/payments.js:37-47 | The debit and the payment row with the next id keep every table valid. |
| Backend.AppendPaymentKeepsConsistent | backend/models/payment.js:6-10 | A payment row with the next id keeps every table valid. |
| Backend.RestatusKeepsConsistent | backend/routes/payments.js:101-104 | A status update keeps every table valid. |
| Backend.Ledger.Valid | backend/routes/auth.js:13-36 | The class invariant that the constructor establishes and every route method requires and keeps: each table's ids number its rows from 1 and its counter is the next id, emails are unique, every account's owner and every transaction's two accounts exist, and no user owns two accounts. |
| Backend.ConsistentJoins | backend/routes/transactions.js:87-98 | Under that invariant the joins and lookups the routes rely on succeed: every account's owner joins to a user and finds that account alone, both accounts of every transaction join to a row, every user's email finds that user, and every payment's id finds that payment. |
| Backend.Ledger.Register | backend/routes/auth.js:8-54 | A taken email gives 400 "User already exists" and changes nothing. Otherwise the route appends one user with a fresh id, the hashed password and the name. It appends one account for that user with balance 0, and answers 201 with a token for the new id and that id. |
| Backend.Ledger.Login | backend/routes/auth.js:57-95 | Success holds exactly when a user with that email has a password that `bcrypt.compare` accepts. Success is 200 with a token for that user's id. Every failure, whether an unknown email or a wrong password, is the same 401 "Invalid credentials". No state changes. |
| Backend.Ledger.GetMyAccount | backend/routes/accounts.js:7-26 | 404 "Account not found" holds exactly when the caller owns no account. Otherwise the answer is 200 with the caller's account and its owner's name and email. It is read-only. |
| Backend.Ledger.LookupAccount | backend/routes/accounts.js:29-48 | 404 holds exactly when no account has that number. Otherwise the answer is a `PublicAccount` with that number and the owner's name, with no balance and no id. It is read-only. |
| Backend.Ledger.Send | backend/routes/transactions.js:7-71 | A failure of SendChecks is answered with its 400 and leaves every table as it was. On success, the balances are those of the debit-then-credit update and exactly one row is appended: the next id, sender, recipient, `amount`, `'transfer'`. The previous rows are kept. |
| Backend.Ledger.Entry | backend/routes/transactions.js:88-97 | A history row carries the transaction itself, both accounts' numbers and both owners' names. |
| Backend.Ledger.TransferHistory | backend/routes/transactions.js:74-108 | 404 holds exactly when the caller owns no account. Otherwise the answer holds exactly the caller's account's transfers, newest first, each with its joined columns. It is read-only. |
| Backend.Ledger.CreatePayment | backend/routes/payments.js:7-66 | A failure of PaymentChecks is answered with its status and leaves every table as it was. On success, the caller's account is debited by `amount`. One payment is appended with the next id, the caller, the type, the reference, the amount and status "completed", and that row is returned with 201. |
| Backend.Ledger.PaymentHistory | backend/routes/payments.js:69-86 | The answer is 200 with exactly the caller's payments, newest first. It is read-only. |
| Backend.Ledger.UpdatePaymentStatus | backend/routes/payments.js:89-123 | The answer is StatusUpdate's, decided on the table before the update. Every error changes nothing. Success sets the status of the caller's payment with that id, and only that. Balances are never touched. |
| Backend.Ledger.InsertPayment | backend/models/payment.js:4-15 | The helper appends one row with the given columns and no status, and returns its id, which no earlier row has. |
| Backend.Ledger.PaymentsByUser | backend/models/payment.js:17-28 | The helper returns exactly that user's payments, newest first. |
| Backend.Ledger.UpdateStatusById | backend/models/payment.js:30-41 | The result is true exactly when some row has that id. That row's status is rewritten, whoever owns it, and nothing else changes. |
| Backend.Ledger.PaymentById | backend/models/payment.js:43-54 | The helper returns the row with that id, or None (`undefined`) when there is none. |

## Left out

- Express wiring in `backend/app.js` and `backend/server.js`: it holds no ledger logic, and it is not part of this model.
- Connection pools and locking: concurrency and interleaved requests are left out. Each route is one atomic step.
- `bcrypt.hash`, `bcrypt.compare` and `jwt.sign` are foreign calls. Their results are inputs or parameters. Token signing and expiry are not modelled.
- `generateAccountNumber` uses `Math.random`, so its result is an input of `Register`. Collisions are possible because nothing checks for them. `AccountWithNumberFirst` states which account is then found, under the primary-key row order assumed for a `SELECT` without `ORDER BY`.
- Type coercion is not modelled:
  - mysql2 may return DECIMAL balances as strings;
  - JSON bodies may carry amounts as strings;
  - route parameters are strings that MySQL converts;
  - `!x` is modelled only as `""` or `0`.
  Amounts are integer cents and ids are naturals.
- Email comparison is exact. MySQL's case-insensitive collation is not modelled.
- `created_at` is modelled as insertion order. Two rows created within the same timestamp tick may come back in either order in the source.
- The 500 answers to unexpected database faults, and `console.error`, are left out. So is `POST /send`'s answer to such a fault: its `catch` answers any error, the driver's included, with 400 and the error's own message, and the model's 400s are only the three checks' messages. So is the chance that `Register`'s second INSERT fails after the first succeeded, since that route runs without a database transaction.
- Column range and rounding: MySQL stores balances and amounts in DECIMAL columns of fixed precision and scale (no schema file is part of this model). The model's `int` is unbounded and exact, so out-of-range values and rounding to the scale are not modelled.
- `Valid` requires ids without gaps. In the model no insert is ever rolled back and no row is deleted. Gaps that MySQL leaves after a failed insert are not modelled.
- A row that `backend/models/payment.js` inserts without a status takes the schema's default for that column. No schema file is part of this model, so that status is `None`.
- `affectedRows` is modelled as the number of rows the WHERE clause matches. That is what the client reports in its default found-rows mode. A server that reports changed rows would give 0 when the same status is written again; that mode is not modelled.
- `POST /payments`' early 400 return leaves the transaction begun at `beginTransaction` open: it neither commits nor rolls back, and `finally` hands the connection back to the pool with that transaction still open, so the next request to borrow the connection runs inside it. That open transaction is left out, with pooling and interleaving. At that point the route has written nothing.
