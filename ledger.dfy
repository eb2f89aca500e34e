/** The bank's database as one object: the four tables and their
    AUTO_INCREMENT counters. Each route of backend/routes/ and each helper of
    backend/models/payment.js is a member: a route that writes is a method, a
    route that only reads is a function. The caller's `userId` is the one the
    authentication middleware decoded from the bearer token. */
module Backend {
  import opened Rows
  import opened Query
  import opened Balances
  import opened Auth
  import opened Accounts
  import opened Transfers
  import opened Payments

  /** Ids number the rows from 1 and the counter is the next number; no two
      users share an email. */
  ghost predicate UsersValid(users: seq<User>, nextId: Id) {
    && UserIdsDense(users)
    && nextId == |users| + 1
    && EmailsUnique(users)
  }

  /** Ids number the rows from 1 and the counter is the next number; every
      account belongs to a user that exists and no user has two. */
  ghost predicate AccountsValid(accounts: seq<Account>, nextUserId: Id, nextId: Id) {
    && AccountIdsDense(accounts)
    && nextId == |accounts| + 1
    && (forall i :: 0 <= i < |accounts| ==> 0 < accounts[i].userId < nextUserId)
    && OwnersDistinct(accounts)
  }

  /** Ids number the rows from 1 and the counter is the next number; both
      accounts of every row exist. */
  ghost predicate TransactionsValid(transactions: seq<Transaction>, nextAccountId: Id, nextId: Id) {
    && TransactionIdsDense(transactions)
    && nextId == |transactions| + 1
    && (forall i :: 0 <= i < |transactions| ==>
          0 < transactions[i].senderAccountId < nextAccountId && 0 < transactions[i].recipientAccountId < nextAccountId)
  }

  /** Ids number the rows from 1 and the counter is the next number. */
  ghost predicate PaymentsValid(payments: seq<Payment>, nextId: Id) {
    && PaymentIdsDense(payments)
    && nextId == |payments| + 1
  }

  /** Every table valid, each against the counters of the tables it refers to. */
  ghost predicate Consistent(users: seq<User>, accounts: seq<Account>, transactions: seq<Transaction>,
                             payments: seq<Payment>, nextUserId: Id, nextAccountId: Id,
                             nextTransactionId: Id, nextPaymentId: Id)
  {
    && UsersValid(users, nextUserId)
    && AccountsValid(accounts, nextUserId, nextAccountId)
    && TransactionsValid(transactions, nextAccountId, nextTransactionId)
    && PaymentsValid(payments, nextPaymentId)
  }

  /** Registration appends a user with the next id and an email nobody has,
      and an account with the next id owned by that user. */
  lemma RegisterKeepsConsistent(users: seq<User>, accounts: seq<Account>, transactions: seq<Transaction>,
                                payments: seq<Payment>, nextUserId: Id, nextAccountId: Id,
                                nextTransactionId: Id, nextPaymentId: Id, u: User, a: Account)
    requires Consistent(users, accounts, transactions, payments, nextUserId, nextAccountId, nextTransactionId, nextPaymentId)
    requires UserWithEmail(users, u.email).None? && u.id == nextUserId
    requires a.id == nextAccountId && a.userId == nextUserId
    ensures Consistent(users + [u], accounts + [a], transactions, payments,
                       nextUserId + 1, nextAccountId + 1, nextTransactionId, nextPaymentId)
  {
    RegisterKeepsEmailsUnique(users, u);
  }

  /** A balance update keeps every account's id and owner. */
  lemma AdjustKeepsValid(accounts: seq<Account>, nextUserId: Id, nextAccountId: Id, w: AccountWhere, delta: int)
    requires AccountsValid(accounts, nextUserId, nextAccountId)
    ensures AccountsValid(Adjust(accounts, w, delta), nextUserId, nextAccountId)
  {
  }

  /** A transfer between two accounts: its two balance updates and its log
      row with the next id. */
  lemma TransferKeepsConsistent(users: seq<User>, accounts: seq<Account>, transactions: seq<Transaction>,
                                payments: seq<Payment>, nextUserId: Id, nextAccountId: Id,
                                nextTransactionId: Id, nextPaymentId: Id, from: Account, to: Account, amount: int)
    requires Consistent(users, accounts, transactions, payments, nextUserId, nextAccountId, nextTransactionId, nextPaymentId)
    requires from in accounts && to in accounts
    ensures Consistent(users, Adjust(Adjust(accounts, IdIs(from.id), -amount), IdIs(to.id), amount),
                       transactions + [Transaction(nextTransactionId, from.id, to.id, amount, "transfer")], payments,
                       nextUserId, nextAccountId, nextTransactionId + 1, nextPaymentId)
  {
    AdjustKeepsValid(accounts, nextUserId, nextAccountId, IdIs(from.id), -amount);
    AdjustKeepsValid(Adjust(accounts, IdIs(from.id), -amount), nextUserId, nextAccountId, IdIs(to.id), amount);
  }

  /** Appending a payment row with the next id. */
  lemma AppendPaymentKeepsConsistent(users: seq<User>, accounts: seq<Account>, transactions: seq<Transaction>,
                                     payments: seq<Payment>, nextUserId: Id, nextAccountId: Id,
                                     nextTransactionId: Id, nextPaymentId: Id, p: Payment)
    requires Consistent(users, accounts, transactions, payments, nextUserId, nextAccountId, nextTransactionId, nextPaymentId)
    requires p.id == nextPaymentId
    ensures Consistent(users, accounts, transactions, payments + [p],
                       nextUserId, nextAccountId, nextTransactionId, nextPaymentId + 1)
  {
  }

  /** A payment: the debit of its owner's accounts and its row with the next id. */
  lemma PaymentKeepsConsistent(users: seq<User>, accounts: seq<Account>, transactions: seq<Transaction>,
                               payments: seq<Payment>, nextUserId: Id, nextAccountId: Id,
                               nextTransactionId: Id, nextPaymentId: Id, p: Payment)
    requires Consistent(users, accounts, transactions, payments, nextUserId, nextAccountId, nextTransactionId, nextPaymentId)
    requires p.id == nextPaymentId
    ensures Consistent(users, Adjust(accounts, UserIs(p.userId), -p.amount), transactions, payments + [p],
                       nextUserId, nextAccountId, nextTransactionId, nextPaymentId + 1)
  {
    AdjustKeepsValid(accounts, nextUserId, nextAccountId, UserIs(p.userId), -p.amount);
  }

  /** A status update keeps every id. */
  lemma RestatusKeepsConsistent(users: seq<User>, accounts: seq<Account>, transactions: seq<Transaction>,
                                payments: seq<Payment>, nextUserId: Id, nextAccountId: Id,
                                nextTransactionId: Id, nextPaymentId: Id, id: Id, owner: Option<Id>, status: string)
    requires Consistent(users, accounts, transactions, payments, nextUserId, nextAccountId, nextTransactionId, nextPaymentId)
    ensures Consistent(users, accounts, transactions, Restatus(payments, id, owner, status),
                       nextUserId, nextAccountId, nextTransactionId, nextPaymentId)
  {
  }

  /** What the routes' joins and lookups rely on: the owner of every account
      joins to a user and is found with no other account; both accounts of
      every transaction join to a row; the email of every user finds that user;
      the id of every payment finds that payment. */
  lemma ConsistentJoins(users: seq<User>, accounts: seq<Account>, transactions: seq<Transaction>,
                        payments: seq<Payment>, nextUserId: Id, nextAccountId: Id,
                        nextTransactionId: Id, nextPaymentId: Id, u: nat, a: nat, t: nat, p: nat)
    requires Consistent(users, accounts, transactions, payments, nextUserId, nextAccountId, nextTransactionId, nextPaymentId)
    ensures a < |accounts| ==> UserWithId(users, accounts[a].userId).Some?
    ensures a < |accounts| ==> AccountOfUser(accounts, accounts[a].userId) == Some(accounts[a])
    ensures t < |transactions| ==> AccountWithId(accounts, transactions[t].senderAccountId).Some?
    ensures t < |transactions| ==> AccountWithId(accounts, transactions[t].recipientAccountId).Some?
    ensures u < |users| ==> UserWithEmail(users, users[u].email) == Some(users[u])
    ensures p < |payments| ==> PaymentWithId(payments, payments[p].id) == Some(payments[p])
  {
    if a < |accounts| {
      UserWithIdDense(users, accounts[a].userId);
      var r := AccountOfUser(accounts, accounts[a].userId);
      var j :| 0 <= j < |accounts| && accounts[j] == r.value;
      assert j == a;
    }
    if t < |transactions| {
      AccountWithIdDense(accounts, transactions[t].senderAccountId);
      AccountWithIdDense(accounts, transactions[t].recipientAccountId);
    }
    if u < |users| {
      EmailsUniqueLookup(users, u);
    }
    if p < |payments| {
      PaymentWithIdIsTheRow(payments, p);
    }
  }

  class Ledger {
    var users: seq<User>
    var accounts: seq<Account>
    var transactions: seq<Transaction>
    var payments: seq<Payment>
    var nextUserId: Id
    var nextAccountId: Id
    var nextTransactionId: Id
    var nextPaymentId: Id

    /** Row `i` of each table has id `i + 1` and each counter is the next
        id; emails are unique; every account belongs to a user and no user has
        two; every transaction refers to two accounts. Balances may be
        negative: nothing in the routes keeps them from it. */
    ghost predicate Valid()
      reads this
    {
      Consistent(users, accounts, transactions, payments, nextUserId, nextAccountId, nextTransactionId, nextPaymentId)
    }

    /** An empty database; AUTO_INCREMENT counters start at 1. */
    constructor ()
      ensures Valid()
      ensures users == [] && accounts == [] && transactions == [] && payments == []
      ensures nextUserId == 1 && nextAccountId == 1 && nextTransactionId == 1 && nextPaymentId == 1
    {
      users, accounts, transactions, payments := [], [], [], [];
      nextUserId, nextAccountId, nextTransactionId, nextPaymentId := 1, 1, 1, 1;
    }

    // ---- backend/routes/auth.js ----

    /** `POST /register`. `hashedPassword` is what bcrypt made of the password
        and `accountNumber` what generateAccountNumber drew; neither is checked
        here, as the route does not check them. */
    method Register(email: string, hashedPassword: string, fullName: string, accountNumber: string)
      returns (r: Result<Session>)
      requires Valid()
      modifies this`users, this`accounts, this`nextUserId, this`nextAccountId
      ensures Valid()
      ensures UserWithEmail(old(users), email).Some? ==> r == Err(400, "User already exists") && unchanged(this)
      ensures UserWithEmail(old(users), email).None? ==>
                var id := old(nextUserId);
                && r == Ok(201, Session(Token(id), id))
                && (forall i :: 0 <= i < |old(users)| ==> old(users)[i].id != id)
                && users == old(users) + [User(id, email, hashedPassword, fullName)]
                && accounts == old(accounts) + [Account(old(nextAccountId), id, accountNumber, 0)]
                && nextUserId == id + 1
                && nextAccountId == old(nextAccountId) + 1
    {
      if UserWithEmail(users, email).Some? {
        return Err(400, "User already exists");
      }
      var id := nextUserId;
      var user := User(id, email, hashedPassword, fullName);
      var account := Account(nextAccountId, id, accountNumber, 0);
      RegisterKeepsConsistent(users, accounts, transactions, payments,
                              nextUserId, nextAccountId, nextTransactionId, nextPaymentId, user, account);
      users := users + [user];
      nextUserId := nextUserId + 1;
      accounts := accounts + [account];
      nextAccountId := nextAccountId + 1;
      r := Ok(201, Session(Token(id), id));
    }

    /** `POST /login`. `passwordMatches(password, hash)` is bcrypt.compare. */
    function Login(email: string, password: string, passwordMatches: (string, string) -> bool): (r: Result<Session>)
      reads this
      requires Valid()
      ensures r.Err? ==> r == Err(401, "Invalid credentials")
      ensures r.Ok? <==> exists i :: 0 <= i < |users| && users[i].email == email && passwordMatches(password, users[i].password)
      ensures r.Ok? ==> && r.status == 200
                        && r.value.token == Token(r.value.userId)
                        && exists i :: 0 <= i < |users| && users[i].id == r.value.userId && users[i].email == email
    {
      match UserWithEmail(users, email)
      case None => Err(401, "Invalid credentials")
      case Some(u) =>
        if passwordMatches(password, u.password) then Ok(200, Session(Token(u.id), u.id))
        else Err(401, "Invalid credentials")
    }

    // ---- backend/routes/accounts.js ----

    /** `GET /accounts`: the caller's account with its owner's name and email. */
    function GetMyAccount(userId: Id): (r: Result<AccountDetails>)
      reads this
      requires Valid()
      ensures r.Err? <==> forall i :: 0 <= i < |accounts| ==> accounts[i].userId != userId
      ensures r.Err? ==> r == Err(404, "Account not found")
      ensures r.Ok? ==> && r.status == 200
                        && (forall i :: 0 <= i < |accounts| && accounts[i].userId == userId ==> r.value.account == accounts[i])
                        && exists u :: u in users && u.id == userId && u.fullName == r.value.fullName && u.email == r.value.email
    {
      match AccountOfUser(accounts, userId)
      case None => Err(404, "Account not found")
      case Some(a) =>
        UserWithIdDense(users, a.userId);
        var u := UserWithId(users, a.userId).value;
        Ok(200, AccountDetails(a, u.fullName, u.email))
    }

    /** `GET /accounts/:accountNumber`: the number and the owner's name only. */
    function LookupAccount(accountNumber: string): (r: Result<PublicAccount>)
      reads this
      requires Valid()
      ensures r.Err? <==> forall i :: 0 <= i < |accounts| ==> accounts[i].accountNumber != accountNumber
      ensures r.Err? ==> r == Err(404, "Account not found")
      ensures r.Ok? ==> && r.status == 200
                        && r.value.accountNumber == accountNumber
                        && exists a, u :: a in accounts && u in users && a.accountNumber == accountNumber
                                          && a.userId == u.id && u.fullName == r.value.fullName
    {
      match AccountWithNumber(accounts, accountNumber)
      case None => Err(404, "Account not found")
      case Some(a) =>
        UserWithIdDense(users, a.userId);
        var u := UserWithId(users, a.userId).value;
        Ok(200, PublicAccount(a.accountNumber, u.fullName))
    }

    // ---- backend/routes/transactions.js ----

    /** `POST /send`, one database transaction: the checks of SendChecks, then
        the two balance updates and the log row, or on any failure a rollback
        and a 400 with the error's message. */
    method Send(userId: Id, recipientAccountNumber: string, amount: int) returns (r: Result<string>)
      requires Valid()
      modifies this`accounts, this`transactions, this`nextTransactionId
      ensures Valid()
      ensures match SendChecks(old(accounts), userId, recipientAccountNumber, amount)
              case Err(status, message) => r == Err(status, message) && unchanged(this)
              case Ok(_, pair) =>
                && r == Ok(200, "Transfer successful")
                && accounts == Adjust(Adjust(old(accounts), IdIs(pair.0.id), -amount), IdIs(pair.1.id), amount)
                && transactions == old(transactions) + [Transaction(old(nextTransactionId), pair.0.id, pair.1.id, amount, "transfer")]
                && nextTransactionId == old(nextTransactionId) + 1
    {
      var checks := SendChecks(accounts, userId, recipientAccountNumber, amount);
      if checks.Err? {
        return Err(checks.status, checks.message);
      }
      var (from, to) := checks.value;
      TransferKeepsConsistent(users, accounts, transactions, payments,
                              nextUserId, nextAccountId, nextTransactionId, nextPaymentId, from, to, amount);
      accounts := Adjust(Adjust(accounts, IdIs(from.id), -amount), IdIs(to.id), amount);
      transactions := transactions + [Transaction(nextTransactionId, from.id, to.id, amount, "transfer")];
      nextTransactionId := nextTransactionId + 1;
      r := Ok(200, "Transfer successful");
    }

    /** The joined columns of a history row are those of the transaction's
        two accounts and of their owners. */
    ghost predicate Describes(e: TransferEntry)
      reads this
    {
      && (exists a, u :: a in accounts && u in users && a.id == e.transaction.senderAccountId && a.userId == u.id
                         && a.accountNumber == e.senderAccountNumber && u.fullName == e.senderName)
      && (exists a, u :: a in accounts && u in users && a.id == e.transaction.recipientAccountId && a.userId == u.id
                         && a.accountNumber == e.recipientAccountNumber && u.fullName == e.recipientName)
    }

    /** One history row: the transaction joined to both accounts and both owners. */
    function Entry(t: Transaction): (e: TransferEntry)
      reads this
      requires Valid() && t in transactions
      ensures e.transaction == t && Describes(e)
    {
      AccountWithIdDense(accounts, t.senderAccountId);
      AccountWithIdDense(accounts, t.recipientAccountId);
      var sa := AccountWithId(accounts, t.senderAccountId).value;
      var ra := AccountWithId(accounts, t.recipientAccountId).value;
      UserWithIdDense(users, sa.userId);
      UserWithIdDense(users, ra.userId);
      var su := UserWithId(users, sa.userId).value;
      var ru := UserWithId(users, ra.userId).value;
      TransferEntry(t, sa.accountNumber, ra.accountNumber, su.fullName, ru.fullName)
    }

    /** `GET /history`: every transfer the caller's account sent or received,
        newest first, each with its joined columns; 404 when the caller has no
        account. */
    function TransferHistory(userId: Id): (r: Result<seq<TransferEntry>>)
      reads this
      requires Valid()
      ensures r.Err? <==> forall i :: 0 <= i < |accounts| ==> accounts[i].userId != userId
      ensures r.Err? ==> r == Err(404, "Account not found")
      ensures r.Ok? ==>
                var a := AccountOfUser(accounts, userId).value;
                var sent := TransactionsOf(r.value);
                && r.status == 200
                && (forall t :: t in sent <==> t in transactions && Involves(t, a.id))
                && Descending(sent, TransactionKey)
                && (forall i :: 0 <= i < |r.value| ==> Describes(r.value[i]))
    {
      match AccountOfUser(accounts, userId)
      case None => Err(404, "Account not found")
      case Some(a) =>
        var rows := TransfersOf(transactions, a.id);
        TransfersOfNewestFirst(transactions, a.id);
        var entries := seq(|rows|, i reads this requires 0 <= i < |rows| && Valid() && rows[i] in transactions
                                     => Entry(rows[i]));
        assert TransactionsOf(entries) == rows;
        Ok(200, entries)
    }

    // ---- backend/routes/payments.js ----

    /** `POST /payments`, one database transaction: the checks of
        PaymentChecks, then the debit of the caller's account, the payment row
        with status "completed", and that row read back by its id. */
    method CreatePayment(userId: Id, paymentType: string, referenceNumber: string, amount: int)
      returns (r: Result<Payment>)
      requires Valid()
      modifies this`accounts, this`payments, this`nextPaymentId
      ensures Valid()
      ensures match PaymentChecks(old(accounts), userId, paymentType, referenceNumber, amount)
              case Err(status, message) => r == Err(status, message) && unchanged(this)
              case Ok(_, _) =>
                var p := Payment(old(nextPaymentId), userId, paymentType, referenceNumber, amount, Some("completed"));
                && r == Ok(201, p)
                && accounts == Adjust(old(accounts), UserIs(userId), -amount)
                && payments == old(payments) + [p]
                && nextPaymentId == old(nextPaymentId) + 1
    {
      var checks := PaymentChecks(accounts, userId, paymentType, referenceNumber, amount);
      if checks.Err? {
        return Err(checks.status, checks.message);
      }
      var row := Payment(nextPaymentId, userId, paymentType, referenceNumber, amount, Some("completed"));
      var debited := Adjust(accounts, UserIs(userId), -amount);
      var recorded := payments + [row];
      PaymentKeepsConsistent(users, accounts, transactions, payments,
                             nextUserId, nextAccountId, nextTransactionId, nextPaymentId, row);
      PaymentWithIdIsTheRow(recorded, |payments|);
      var created := PaymentWithId(recorded, row.id);
      accounts, payments, nextPaymentId := debited, recorded, nextPaymentId + 1;
      r := Ok(201, created.value);
    }

    /** `GET /payments/history`: the caller's payments, newest first. */
    function PaymentHistory(userId: Id): (r: Result<seq<Payment>>)
      reads this
      requires Valid()
      ensures r.Ok? && r.status == 200
      ensures forall p :: p in r.value <==> p in payments && p.userId == userId
      ensures Descending(r.value, PaymentKey)
    {
      PaymentsOfNewestFirst(payments, userId);
      Ok(200, PaymentsOf(payments, userId))
    }

    /** `PATCH /payments/:paymentId/status`: rewrite the status of the caller's
        payment with that id, to any non-empty string; 404 when the caller owns
        no such payment. */
    method UpdatePaymentStatus(userId: Id, paymentId: Id, status: string) returns (r: Result<Payment>)
      requires Valid()
      modifies this`payments
      ensures Valid()
      ensures r == StatusUpdate(old(payments), userId, paymentId, status)
      ensures r.Err? ==> unchanged(this)
      ensures r.Ok? ==> payments == Restatus(old(payments), paymentId, Some(userId), status)
    {
      if status == "" {
        return Err(400, "Status is required");
      }
      var affected := AffectedRows(payments, paymentId, Some(userId));
      if affected == 0 {
        RestatusNoneAffected(payments, paymentId, Some(userId), status);
      }
      RestatusKeepsConsistent(users, accounts, transactions, payments, nextUserId, nextAccountId,
                              nextTransactionId, nextPaymentId, paymentId, Some(userId), status);
      ghost var before := payments;
      payments := Restatus(payments, paymentId, Some(userId), status);
      if affected == 0 {
        return Err(404, "Payment not found");
      }
      RestatusFound(before, paymentId, Some(userId), status);
      var updated := PaymentWithId(payments, paymentId);
      r := Ok(200, updated.value);
    }

    // ---- backend/models/payment.js (exported by no file, used by no route) ----

    /** `Payment.create`: append a row without a status and return its fresh id. */
    method InsertPayment(userId: Id, paymentType: string, referenceNumber: string, amount: int)
      returns (id: Id)
      requires Valid()
      modifies this`payments, this`nextPaymentId
      ensures Valid()
      ensures id == old(nextPaymentId)
      ensures forall i :: 0 <= i < |old(payments)| ==> old(payments)[i].id != id
      ensures payments == old(payments) + [Payment(id, userId, paymentType, referenceNumber, amount, None)]
      ensures nextPaymentId == id + 1
    {
      id := nextPaymentId;
      AppendPaymentKeepsConsistent(users, accounts, transactions, payments, nextUserId, nextAccountId,
                                   nextTransactionId, nextPaymentId, Payment(id, userId, paymentType, referenceNumber, amount, None));
      payments := payments + [Payment(id, userId, paymentType, referenceNumber, amount, None)];
      nextPaymentId := nextPaymentId + 1;
    }

    /** `Payment.getByUserId`: that user's payments, newest first. */
    function PaymentsByUser(userId: Id): (r: seq<Payment>)
      reads this
      requires Valid()
      ensures forall p :: p in r <==> p in payments && p.userId == userId
      ensures Descending(r, PaymentKey)
    {
      PaymentsOfNewestFirst(payments, userId);
      PaymentsOf(payments, userId)
    }

    /** `Payment.updateStatus`: rewrite the status of the row with that id,
        whoever owns it; true when such a row exists. */
    method UpdateStatusById(paymentId: Id, status: string) returns (updated: bool)
      requires Valid()
      modifies this`payments
      ensures Valid()
      ensures updated <==> exists i :: 0 <= i < |old(payments)| && old(payments)[i].id == paymentId
      ensures payments == Restatus(old(payments), paymentId, None, status)
      ensures forall i :: 0 <= i < |payments| ==>
                payments[i] == if old(payments)[i].id == paymentId then old(payments)[i].(status := Some(status))
                               else old(payments)[i]
    {
      var affected := AffectedRows(payments, paymentId, None);
      RestatusKeepsConsistent(users, accounts, transactions, payments, nextUserId, nextAccountId,
                              nextTransactionId, nextPaymentId, paymentId, None, status);
      payments := Restatus(payments, paymentId, None, status);
      updated := affected > 0;
    }

    /** `Payment.getById`: the row with that id, or None for `undefined`. */
    function PaymentById(paymentId: Id): (r: Option<Payment>)
      reads this
      requires Valid()
      ensures r.None? <==> forall i :: 0 <= i < |payments| ==> payments[i].id != paymentId
      ensures r.Some? ==> r.value in payments && r.value.id == paymentId
      ensures forall i :: 0 <= i < |payments| && payments[i].id == paymentId ==> r == Some(payments[i])
    {
      PaymentWithId(payments, paymentId)
    }
  }
}
