/** The `payments` table as backend/routes/payments.js and
    backend/models/payment.js query and update it. */
module Payments {
  import opened Rows
  import opened Query
  import opened Balances
  import opened Accounts

  /** `SELECT * FROM payments WHERE user_id = ? ORDER BY created_at DESC`. */
  function PaymentsOf(payments: seq<Payment>, userId: Id): (r: seq<Payment>)
    ensures forall p :: p in r <==> p in payments && p.userId == userId
  {
    NewestFirst(payments, (p: Payment) => p.userId == userId)
  }

  /** Row `i` has id `i + 1`: AUTO_INCREMENT counts from 1 and no payment
      is ever deleted. */
  predicate PaymentIdsDense(payments: seq<Payment>) {
    forall i :: 0 <= i < |payments| ==> payments[i].id == i + 1
  }

  /** A user's payments come newest first, by id. */
  lemma PaymentsOfNewestFirst(payments: seq<Payment>, userId: Id)
    requires PaymentIdsDense(payments)
    ensures Descending(PaymentsOf(payments, userId), PaymentKey)
  {
    assert Ascending(payments, PaymentKey);
    NewestFirstDescending(payments, (p: Payment) => p.userId == userId, PaymentKey);
  }

  /** `payments[0]` of `SELECT * FROM payments WHERE id = ?`; None is `undefined`. */
  function PaymentWithId(payments: seq<Payment>, id: Id): (r: Option<Payment>)
    ensures r.None? <==> forall i :: 0 <= i < |payments| ==> payments[i].id != id
    ensures r.Some? ==> r.value in payments && r.value.id == id
  {
    if |payments| == 0 then None
    else if payments[0].id == id then Some(payments[0])
    else PaymentWithId(payments[1..], id)
  }

  /** The WHERE clause of a status update: `id = ?`, and `AND user_id = ?` when an owner is given. */
  predicate Targets(p: Payment, id: Id, owner: Option<Id>) {
    p.id == id && (owner.None? || p.userId == owner.value)
  }

  /** `UPDATE payments SET status = ? WHERE ...`. */
  function Restatus(payments: seq<Payment>, id: Id, owner: Option<Id>, status: string): (r: seq<Payment>)
    ensures |r| == |payments|
    ensures forall i :: 0 <= i < |payments| ==>
              r[i] == if Targets(payments[i], id, owner) then payments[i].(status := Some(status)) else payments[i]
  {
    if |payments| == 0 then []
    else
      var p := payments[0];
      [if Targets(p, id, owner) then p.(status := Some(status)) else p] + Restatus(payments[1..], id, owner, status)
  }

  /** `result.affectedRows` of that update: the number of rows it matched. */
  function AffectedRows(payments: seq<Payment>, id: Id, owner: Option<Id>): (n: nat)
    ensures n > 0 <==> exists i :: 0 <= i < |payments| && Targets(payments[i], id, owner)
  {
    if |payments| == 0 then 0
    else
      var rest := AffectedRows(payments[1..], id, owner);
      assert rest > 0 <==> exists i :: 1 <= i < |payments| && Targets(payments[i], id, owner) by {
        if rest > 0 {
          var i :| 0 <= i < |payments[1..]| && Targets(payments[1..][i], id, owner);
          assert payments[i + 1] == payments[1..][i];
        }
        if exists i :: 1 <= i < |payments| && Targets(payments[i], id, owner) {
          var i :| 1 <= i < |payments| && Targets(payments[i], id, owner);
          assert payments[1..][i - 1] == payments[i];
        }
      }
      (if Targets(payments[0], id, owner) then 1 else 0) + rest
  }

  /** An update that matches no row leaves the table as it was. */
  lemma RestatusNoneAffected(payments: seq<Payment>, id: Id, owner: Option<Id>, status: string)
    requires AffectedRows(payments, id, owner) == 0
    ensures Restatus(payments, id, owner, status) == payments
  {
  }

  /** Ids are a primary key: the lookup by id finds exactly the row with that id. */
  lemma PaymentWithIdIsTheRow(payments: seq<Payment>, k: nat)
    requires PaymentIdsDense(payments) && k < |payments|
    ensures PaymentWithId(payments, payments[k].id) == Some(payments[k])
  {
    var r := PaymentWithId(payments, payments[k].id);
    var j :| 0 <= j < |payments| && payments[j] == r.value;
  }

  /** An update that matches a row leaves it, found by its id, with the new
      status and every other column as it was. */
  lemma RestatusFound(payments: seq<Payment>, id: Id, owner: Option<Id>, status: string)
    requires PaymentIdsDense(payments)
    requires AffectedRows(payments, id, owner) > 0
    ensures exists i :: 0 <= i < |payments| && Targets(payments[i], id, owner)
                        && PaymentWithId(Restatus(payments, id, owner, status), id) == Some(payments[i].(status := Some(status)))
  {
    var i :| 0 <= i < |payments| && Targets(payments[i], id, owner);
    var r := Restatus(payments, id, owner, status);
    assert PaymentIdsDense(r);
    PaymentWithIdIsTheRow(r, i);
  }

  /** What `PATCH /payments/:paymentId/status` answers, decided on the table
      before the update: 400 without a status, 404 when the caller owns no
      payment with that id, otherwise the row read back after the update. */
  function StatusUpdate(payments: seq<Payment>, userId: Id, paymentId: Id, status: string): (r: Result<Payment>)
    requires PaymentIdsDense(payments)
    ensures r == Err(400, "Status is required") <==> status == ""
    ensures r == Err(404, "Payment not found") <==>
              status != "" && forall i :: 0 <= i < |payments| ==> !Targets(payments[i], paymentId, Some(userId))
    ensures r.Err? ==> r == Err(400, "Status is required") || r == Err(404, "Payment not found")
    ensures r.Ok? ==> && r.status == 200
                      && exists i :: 0 <= i < |payments| && Targets(payments[i], paymentId, Some(userId))
                                     && r.value == payments[i].(status := Some(status))
  {
    if status == "" then Err(400, "Status is required")
    else if AffectedRows(payments, paymentId, Some(userId)) == 0 then Err(404, "Payment not found")
    else
      RestatusFound(payments, paymentId, Some(userId), status);
      Ok(200, PaymentWithId(Restatus(payments, paymentId, Some(userId), status), paymentId).value)
  }

  /** The checks `POST /payments` makes before it writes, in the route's
      order: every field present and truthy (an empty string or an amount of 0
      is missing, a negative amount is not), then the caller's account (the
      first row with that owner), then its balance against `amount`. Success
      yields the account and the 201 the route answers with. */
  function PaymentChecks(accounts: seq<Account>, userId: Id, paymentType: string, referenceNumber: string, amount: int)
    : (r: Result<Account>)
    ensures r == Err(400, "Missing required fields") <==> paymentType == "" || referenceNumber == "" || amount == 0
    ensures r == Err(404, "Account not found") <==>
              && paymentType != "" && referenceNumber != "" && amount != 0
              && forall i :: 0 <= i < |accounts| ==> accounts[i].userId != userId
    ensures r == Err(400, "Insufficient funds") ==>
              exists i :: 0 <= i < |accounts| && accounts[i].userId == userId && accounts[i].balance < amount
    ensures r.Err? ==> r == Err(400, "Missing required fields") || r == Err(404, "Account not found")
                       || r == Err(400, "Insufficient funds")
    ensures r.Ok? ==> && r.status == 201
                      && paymentType != "" && referenceNumber != "" && amount != 0
                      && r.value in accounts && r.value.userId == userId && r.value.balance >= amount
  {
    if paymentType == "" || referenceNumber == "" || amount == 0 then Err(400, "Missing required fields")
    else
      match AccountOfUser(accounts, userId)
      case None => Err(404, "Account not found")
      case Some(a) => if a.balance < amount then Err(400, "Insufficient funds") else Ok(201, a)
  }

  /** With one account per user the balance checked is that of the caller's
      account `accounts[k]`. */
  lemma PaymentChecksCaller(accounts: seq<Account>, userId: Id, paymentType: string, referenceNumber: string,
                            amount: int, k: nat)
    requires OwnersDistinct(accounts)
    requires k < |accounts| && accounts[k].userId == userId
    requires paymentType != "" && referenceNumber != "" && amount != 0
    ensures var r := PaymentChecks(accounts, userId, paymentType, referenceNumber, amount);
            && (r == Err(400, "Insufficient funds") <==> accounts[k].balance < amount)
            && (r.Ok? ==> r.value == accounts[k])
  {
    var a := AccountOfUser(accounts, userId).value;
    var j :| 0 <= j < |accounts| && accounts[j] == a;
  }

  /** A payment that passes the checks takes exactly `amount` out of the
      bank, from the caller's one account, and keeps every balance
      non-negative whatever the sign of `amount`. */
  lemma PaymentDebits(accounts: seq<Account>, userId: Id, paymentType: string, referenceNumber: string, amount: int)
    requires OwnersDistinct(accounts)
    ensures PaymentChecks(accounts, userId, paymentType, referenceNumber, amount).Ok? ==>
              var after := Adjust(accounts, UserIs(userId), -amount);
              && (forall i :: 0 <= i < |accounts| ==>
                    && after[i].id == accounts[i].id && after[i].userId == accounts[i].userId
                    && after[i].balance == accounts[i].balance - (if accounts[i].userId == userId then amount else 0))
              && Total(after) == Total(accounts) - amount
              && (NonNegative(accounts) ==> NonNegative(after))
  {
    var r := PaymentChecks(accounts, userId, paymentType, referenceNumber, amount);
    if r.Ok? {
      var k :| 0 <= k < |accounts| && accounts[k] == r.value;
      assert AtMostOne(accounts, UserIs(userId));
      CountOne(accounts, UserIs(userId), k);
      AdjustTotal(accounts, UserIs(userId), -amount);
      if NonNegative(accounts) {
        DebitKeepsNonNegative(accounts, userId, amount);
      }
    }
  }
}
