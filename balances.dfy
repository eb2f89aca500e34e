/** The balance column of `accounts`: the one UPDATE statement the routes use
    on it, `UPDATE accounts SET balance = balance + delta WHERE ...`, and what it
    does to the sum of all balances. */
module Balances {
  import opened Rows

  /** The WHERE clause of a balance update: by account id (transfers) or by owner (payments). */
  datatype AccountWhere = IdIs(id: Id) | UserIs(userId: Id)

  predicate Matches(a: Account, w: AccountWhere) {
    match w
    case IdIs(id) => a.id == id
    case UserIs(u) => a.userId == u
  }

  /** `UPDATE accounts SET balance = balance + delta WHERE w`. */
  function Adjust(rows: seq<Account>, w: AccountWhere, delta: int): (r: seq<Account>)
    ensures |r| == |rows|
    ensures forall i :: 0 <= i < |rows| ==>
              && r[i].id == rows[i].id
              && r[i].userId == rows[i].userId
              && r[i].accountNumber == rows[i].accountNumber
              && r[i].balance == (if Matches(rows[i], w) then rows[i].balance + delta else rows[i].balance)
  {
    if |rows| == 0 then []
    else
      var a := rows[0];
      [if Matches(a, w) then a.(balance := a.balance + delta) else a] + Adjust(rows[1..], w, delta)
  }

  /** The money held in the ledger: the sum of all balances. */
  function Total(rows: seq<Account>): int {
    if |rows| == 0 then 0 else rows[0].balance + Total(rows[1..])
  }

  /** How many rows the WHERE clause matches. */
  function Count(rows: seq<Account>, w: AccountWhere): nat {
    if |rows| == 0 then 0 else (if Matches(rows[0], w) then 1 else 0) + Count(rows[1..], w)
  }

  predicate NonNegative(rows: seq<Account>) {
    forall i :: 0 <= i < |rows| ==> rows[i].balance >= 0
  }

  /** No two rows match the WHERE clause; true of `IdIs` because ids are a
      primary key, and of `UserIs` because registration creates one account per user. */
  predicate AtMostOne(rows: seq<Account>, w: AccountWhere) {
    forall i, j :: 0 <= i < |rows| && 0 <= j < |rows| && Matches(rows[i], w) && Matches(rows[j], w) ==> i == j
  }

  /** An update changes the total by `delta` once per matched row. */
  lemma {:induction false} AdjustTotal(rows: seq<Account>, w: AccountWhere, delta: int)
    ensures Total(Adjust(rows, w, delta)) == Total(rows) + delta * Count(rows, w)
  {
    if |rows| > 0 {
      var r := Adjust(rows, w, delta);
      assert r[1..] == Adjust(rows[1..], w, delta);
      AdjustTotal(rows[1..], w, delta);
      var c := Count(rows[1..], w);
      if Matches(rows[0], w) {
        assert delta * (1 + c) == delta + delta * c;
      }
    }
  }

  lemma {:induction false} CountNone(rows: seq<Account>, w: AccountWhere)
    requires forall i :: 0 <= i < |rows| ==> !Matches(rows[i], w)
    ensures Count(rows, w) == 0
  {
    if |rows| > 0 {
      CountNone(rows[1..], w);
    }
  }

  /** A clause that matches exactly one row counts one. */
  lemma {:induction false} CountOne(rows: seq<Account>, w: AccountWhere, k: nat)
    requires AtMostOne(rows, w)
    requires k < |rows| && Matches(rows[k], w)
    ensures Count(rows, w) == 1
  {
    var tail := rows[1..];
    if k == 0 {
      assert forall i :: 0 <= i < |tail| ==> !Matches(tail[i], w) by {
        forall i | 0 <= i < |tail| ensures !Matches(tail[i], w) {
          assert tail[i] == rows[i + 1];
        }
      }
      CountNone(tail, w);
    } else {
      assert !Matches(rows[0], w);
      assert tail[k - 1] == rows[k];
      assert AtMostOne(tail, w) by {
        forall i, j | 0 <= i < |tail| && 0 <= j < |tail| && Matches(tail[i], w) && Matches(tail[j], w)
          ensures i == j
        {
          assert tail[i] == rows[i + 1] && tail[j] == rows[j + 1];
        }
      }
      CountOne(tail, w, k - 1);
    }
  }

  /** An update of a clause that matches exactly one row changes the total by `delta`. */
  lemma AdjustOneTotal(rows: seq<Account>, w: AccountWhere, delta: int, k: nat)
    requires AtMostOne(rows, w)
    requires k < |rows| && Matches(rows[k], w)
    ensures Total(Adjust(rows, w, delta)) == Total(rows) + delta
  {
    CountOne(rows, w, k);
    AdjustTotal(rows, w, delta);
  }

  /** A balance update keeps every id, so an id that named at most one row still does. */
  lemma AdjustKeepsAtMostOne(rows: seq<Account>, w: AccountWhere, delta: int, id: Id)
    requires AtMostOne(rows, IdIs(id))
    ensures AtMostOne(Adjust(rows, w, delta), IdIs(id))
  {
    var r := Adjust(rows, w, delta);
    forall i, j | 0 <= i < |r| && 0 <= j < |r| && Matches(r[i], IdIs(id)) && Matches(r[j], IdIs(id))
      ensures i == j
    {
      assert Matches(rows[i], IdIs(id)) && Matches(rows[j], IdIs(id));
    }
  }

  /** A transfer between two existing accounts, the debit then the credit,
      creates and destroys no money. */
  lemma TransferConserves(rows: seq<Account>, kf: nat, kt: nat, amount: int)
    requires kf < |rows| && kt < |rows|
    requires AtMostOne(rows, IdIs(rows[kf].id)) && AtMostOne(rows, IdIs(rows[kt].id))
    ensures Total(Adjust(Adjust(rows, IdIs(rows[kf].id), -amount), IdIs(rows[kt].id), amount)) == Total(rows)
  {
    var from, to := rows[kf].id, rows[kt].id;
    var mid := Adjust(rows, IdIs(from), -amount);
    assert Total(mid) == Total(rows) - amount by {
      AdjustOneTotal(rows, IdIs(from), -amount, kf);
    }
    assert Total(Adjust(mid, IdIs(to), amount)) == Total(mid) + amount by {
      AdjustKeepsAtMostOne(rows, IdIs(from), -amount, to);
      AdjustOneTotal(mid, IdIs(to), amount, kt);
    }
  }

  /** What a transfer does to each row: the debit and the credit, on rows
      that keep their id and number. */
  lemma TransferBalances(rows: seq<Account>, from: Id, to: Id, amount: int)
    ensures var after := Adjust(Adjust(rows, IdIs(from), -amount), IdIs(to), amount);
            forall i :: 0 <= i < |rows| ==>
              && after[i].id == rows[i].id && after[i].accountNumber == rows[i].accountNumber
              && after[i].balance == rows[i].balance - (if rows[i].id == from then amount else 0)
                                                     + (if rows[i].id == to then amount else 0)
  {
  }

  /** Sending money to one's own account leaves the table as it was. */
  lemma SelfTransferUnchanged(rows: seq<Account>, id: Id, amount: int)
    ensures Adjust(Adjust(rows, IdIs(id), -amount), IdIs(id), amount) == rows
  {
    var r := Adjust(Adjust(rows, IdIs(id), -amount), IdIs(id), amount);
    forall i | 0 <= i < |rows| ensures r[i] == rows[i] {
      assert r[i] == Account(rows[i].id, rows[i].userId, rows[i].accountNumber, rows[i].balance);
    }
  }

  /** The balance check makes a non-negative transfer safe: when the sender
      holds at least `amount`, no balance goes below zero. */
  lemma TransferKeepsNonNegative(rows: seq<Account>, from: Id, to: Id, amount: int)
    requires NonNegative(rows) && amount >= 0
    requires forall i :: 0 <= i < |rows| && rows[i].id == from ==> rows[i].balance >= amount
    ensures NonNegative(Adjust(Adjust(rows, IdIs(from), -amount), IdIs(to), amount))
  {
  }

  /** A payment debit, `balance - amount` on the owner's one account, keeps
      every balance non-negative when the owner holds at least `amount`,
      whatever the sign of `amount`. */
  lemma DebitKeepsNonNegative(rows: seq<Account>, userId: Id, amount: int)
    requires NonNegative(rows)
    requires forall i :: 0 <= i < |rows| && rows[i].userId == userId ==> rows[i].balance >= amount
    ensures NonNegative(Adjust(rows, UserIs(userId), -amount))
  {
  }
}
