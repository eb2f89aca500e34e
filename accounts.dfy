/** The `accounts` lookups of backend/routes/accounts.js and
    backend/routes/transactions.js, and the two views accounts.js returns. */
module Accounts {
  import opened Rows

  /** `GET /accounts`: every column of the account, and the owner's name and email. */
  datatype AccountDetails = AccountDetails(account: Account, fullName: string, email: string)

  /** `GET /accounts/:accountNumber`: the number and the owner's name, nothing else. */
  datatype PublicAccount = PublicAccount(accountNumber: string, fullName: string)

  /** `rows[0]` of `SELECT * FROM accounts WHERE user_id = ?`. */
  function AccountOfUser(accounts: seq<Account>, userId: Id): (r: Option<Account>)
    ensures r.None? <==> forall i :: 0 <= i < |accounts| ==> accounts[i].userId != userId
    ensures r.Some? ==> r.value in accounts && r.value.userId == userId
  {
    if |accounts| == 0 then None
    else if accounts[0].userId == userId then Some(accounts[0])
    else AccountOfUser(accounts[1..], userId)
  }

  /** `rows[0]` of `SELECT * FROM accounts WHERE account_number = ?`. */
  function AccountWithNumber(accounts: seq<Account>, accountNumber: string): (r: Option<Account>)
    ensures r.None? <==> forall i :: 0 <= i < |accounts| ==> accounts[i].accountNumber != accountNumber
    ensures r.Some? ==> r.value in accounts && r.value.accountNumber == accountNumber
  {
    if |accounts| == 0 then None
    else if accounts[0].accountNumber == accountNumber then Some(accounts[0])
    else AccountWithNumber(accounts[1..], accountNumber)
  }

  /** Account numbers are not unique: the recipient found is the first row
      with that number, every earlier row having another. */
  lemma {:induction false} AccountWithNumberFirst(accounts: seq<Account>, accountNumber: string)
    ensures var r := AccountWithNumber(accounts, accountNumber);
            r.Some? ==> exists k :: 0 <= k < |accounts| && accounts[k] == r.value
                                    && forall j :: 0 <= j < k ==> accounts[j].accountNumber != accountNumber
  {
    if |accounts| > 0 && accounts[0].accountNumber != accountNumber {
      var tail := accounts[1..];
      AccountWithNumberFirst(tail, accountNumber);
      var r := AccountWithNumber(tail, accountNumber);
      if r.Some? {
        var k :| 0 <= k < |tail| && tail[k] == r.value
                 && forall j :: 0 <= j < k ==> tail[j].accountNumber != accountNumber;
        assert accounts[k + 1] == r.value;
        forall j | 0 <= j < k + 1 ensures accounts[j].accountNumber != accountNumber {
          if j > 0 {
            assert accounts[j] == tail[j - 1];
          }
        }
      }
    }
  }

  /** The account a transaction's `sender_account_id` or `recipient_account_id` joins to. */
  function AccountWithId(accounts: seq<Account>, id: Id): (r: Option<Account>)
    ensures r.None? <==> forall i :: 0 <= i < |accounts| ==> accounts[i].id != id
    ensures r.Some? ==> r.value in accounts && r.value.id == id
  {
    if |accounts| == 0 then None
    else if accounts[0].id == id then Some(accounts[0])
    else AccountWithId(accounts[1..], id)
  }

  /** Row `i` has id `i + 1`: AUTO_INCREMENT counts from 1 and no account is
      ever deleted. */
  predicate AccountIdsDense(accounts: seq<Account>) {
    forall i :: 0 <= i < |accounts| ==> accounts[i].id == i + 1
  }

  /** The join on an account id finds the row the id numbers. */
  lemma AccountWithIdDense(accounts: seq<Account>, id: Id)
    requires AccountIdsDense(accounts) && 0 < id <= |accounts|
    ensures AccountWithId(accounts, id) == Some(accounts[id - 1])
  {
    var r := AccountWithId(accounts, id);
    assert accounts[id - 1].id == id;
    var j :| 0 <= j < |accounts| && accounts[j] == r.value;
  }

  /** No two accounts belong to the same user. */
  predicate OwnersDistinct(accounts: seq<Account>) {
    forall i, j :: 0 <= i < j < |accounts| ==> accounts[i].userId != accounts[j].userId
  }
}
