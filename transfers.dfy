/** backend/routes/transactions.js on values: the checks `POST /send` makes
    before it writes, what its two balance updates do to the money in the
    bank, which rows `GET /history` selects and the joined columns it adds. */
module Transfers {
  import opened Rows
  import opened Query
  import opened Balances
  import opened Accounts

  /** The history filter: `t.sender_account_id = ? OR t.recipient_account_id = ?`. */
  predicate Involves(t: Transaction, accountId: Id) {
    t.senderAccountId == accountId || t.recipientAccountId == accountId
  }

  /** The rows `GET /history` selects for one account, `ORDER BY t.created_at DESC`. */
  function TransfersOf(transactions: seq<Transaction>, accountId: Id): (r: seq<Transaction>)
    ensures forall t :: t in r <==> t in transactions && Involves(t, accountId)
  {
    NewestFirst(transactions, (t: Transaction) => Involves(t, accountId))
  }

  /** Row `i` has id `i + 1`: AUTO_INCREMENT counts from 1 and no row is
      ever deleted. */
  predicate TransactionIdsDense(transactions: seq<Transaction>) {
    forall i :: 0 <= i < |transactions| ==> transactions[i].id == i + 1
  }

  /** The history's order: newest first, by id. */
  lemma TransfersOfNewestFirst(transactions: seq<Transaction>, accountId: Id)
    requires TransactionIdsDense(transactions)
    ensures Descending(TransfersOf(transactions, accountId), TransactionKey)
  {
    assert Ascending(transactions, TransactionKey);
    NewestFirstDescending(transactions, (t: Transaction) => Involves(t, accountId), TransactionKey);
  }

  /** One history row: `t.*` with both account numbers and both owners' names. */
  datatype TransferEntry = TransferEntry(transaction: Transaction,
                                         senderAccountNumber: string, recipientAccountNumber: string,
                                         senderName: string, recipientName: string)

  /** The `t.*` part of each history row. */
  function TransactionsOf(entries: seq<TransferEntry>): seq<Transaction> {
    seq(|entries|, i requires 0 <= i < |entries| => entries[i].transaction)
  }

  /** The checks `POST /send` makes before it writes, in the route's order, on
      the accounts as it finds them: the caller's account (the first row with
      that owner), its balance against `amount`, then the recipient's account
      (the first row with that number). Every failure is answered 400 with the
      error's message; success yields the two accounts, sender first. */
  function SendChecks(accounts: seq<Account>, userId: Id, recipientAccountNumber: string, amount: int)
    : (r: Result<(Account, Account)>)
    ensures r.Err? ==> r.status == 400
    ensures r.Err? ==> r.message == "Sender account not found" || r.message == "Insufficient funds"
                       || r.message == "Recipient account not found"
    ensures r == Err(400, "Sender account not found") <==> forall i :: 0 <= i < |accounts| ==> accounts[i].userId != userId
    ensures r == Err(400, "Insufficient funds") ==>
              exists i :: 0 <= i < |accounts| && accounts[i].userId == userId && accounts[i].balance < amount
    ensures r == Err(400, "Recipient account not found") ==>
              && (exists i :: 0 <= i < |accounts| && accounts[i].userId == userId && accounts[i].balance >= amount)
              && forall i :: 0 <= i < |accounts| ==> accounts[i].accountNumber != recipientAccountNumber
    ensures r.Ok? ==> && r.status == 200
                      && r.value.0 in accounts && r.value.0.userId == userId && r.value.0.balance >= amount
                      && r.value.1 in accounts && r.value.1.accountNumber == recipientAccountNumber
  {
    match AccountOfUser(accounts, userId)
    case None => Err(400, "Sender account not found")
    case Some(sender) =>
      if sender.balance < amount then Err(400, "Insufficient funds")
      else
        match AccountWithNumber(accounts, recipientAccountNumber)
        case None => Err(400, "Recipient account not found")
        case Some(recipient) => Ok(200, (sender, recipient))
  }

  /** With one account per user the checks are decided by the caller's
      account `accounts[k]`: its balance is checked before the recipient is
      looked up, and a transfer starts from it. */
  lemma SendChecksCaller(accounts: seq<Account>, userId: Id, recipientAccountNumber: string, amount: int, k: nat)
    requires OwnersDistinct(accounts)
    requires k < |accounts| && accounts[k].userId == userId
    ensures var r := SendChecks(accounts, userId, recipientAccountNumber, amount);
            && (r == Err(400, "Insufficient funds") <==> accounts[k].balance < amount)
            && (r == Err(400, "Recipient account not found") <==>
                  accounts[k].balance >= amount
                  && forall i :: 0 <= i < |accounts| ==> accounts[i].accountNumber != recipientAccountNumber)
            && (r.Ok? ==> r.value.0 == accounts[k])
  {
    var a := AccountOfUser(accounts, userId).value;
    var j :| 0 <= j < |accounts| && accounts[j] == a;
  }

  /** A transfer that passes the checks creates and destroys no money, leaves
      the table as it was when both accounts are the caller's, and keeps every
      balance non-negative when the amount is. */
  lemma SendMovesMoney(accounts: seq<Account>, userId: Id, recipientAccountNumber: string, amount: int)
    requires AccountIdsDense(accounts)
    ensures var r := SendChecks(accounts, userId, recipientAccountNumber, amount);
            r.Ok? ==>
              var after := Adjust(Adjust(accounts, IdIs(r.value.0.id), -amount), IdIs(r.value.1.id), amount);
              && (forall i :: 0 <= i < |accounts| ==>
                    && after[i].id == accounts[i].id && after[i].accountNumber == accounts[i].accountNumber
                    && after[i].balance == accounts[i].balance
                                           - (if accounts[i].id == r.value.0.id then amount else 0)
                                           + (if accounts[i].id == r.value.1.id then amount else 0))
              && Total(after) == Total(accounts)
              && (r.value.0.id == r.value.1.id ==> after == accounts)
              && (NonNegative(accounts) && amount >= 0 ==> NonNegative(after))
  {
    var r := SendChecks(accounts, userId, recipientAccountNumber, amount);
    if r.Ok? {
      var (from, to) := r.value;
      var after := Adjust(Adjust(accounts, IdIs(from.id), -amount), IdIs(to.id), amount);
      TransferBalances(accounts, from.id, to.id, amount);
      assert Total(after) == Total(accounts) by {
        var kf :| 0 <= kf < |accounts| && accounts[kf] == from;
        var kt :| 0 <= kt < |accounts| && accounts[kt] == to;
        assert AtMostOne(accounts, IdIs(from.id)) && AtMostOne(accounts, IdIs(to.id));
        TransferConserves(accounts, kf, kt, amount);
      }
      if from.id == to.id {
        SelfTransferUnchanged(accounts, from.id, amount);
      }
      if NonNegative(accounts) && amount >= 0 {
        TransferKeepsNonNegative(accounts, from.id, to.id, amount);
      }
    }
  }

  /** Without a positivity check a transfer of a negative amount passes the
      route's checks and overdraws the recipient. */
  lemma NegativeTransferOverdraws()
    ensures var rows := [Account(1, 1, "1000000001", 0), Account(2, 2, "1000000002", 0)];
            var amount := -500;
            var r := SendChecks(rows, 1, "1000000002", amount);
            && NonNegative(rows)
            && r.Ok?
            && var after := Adjust(Adjust(rows, IdIs(r.value.0.id), -amount), IdIs(r.value.1.id), amount);
               && !NonNegative(after)
               && after[1].balance == -500
  {
    var rows := [Account(1, 1, "1000000001", 0), Account(2, 2, "1000000002", 0)];
    assert AccountOfUser(rows, 1) == Some(rows[0]);
    assert AccountWithNumber(rows[1..], "1000000002") == Some(rows[1]);
    assert AccountWithNumber(rows, "1000000002") == Some(rows[1]);
  }
}
