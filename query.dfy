/** Generic forms of the SQL the routes issue against one table, a table being
    its rows in primary-key order: all the rows of a `SELECT ... WHERE`, and the
    same rows `ORDER BY created_at DESC`, creation order being the order in
    which rows were appended. */
module Query {
  import opened Rows

  /** The keys strictly increase along the table: rows are appended with ever larger ids. */
  predicate Ascending<T>(rows: seq<T>, key: T -> Id) {
    forall i, j :: 0 <= i < j < |rows| ==> key(rows[i]) < key(rows[j])
  }

  predicate Descending<T>(rows: seq<T>, key: T -> Id) {
    forall i, j :: 0 <= i < j < |rows| ==> key(rows[i]) > key(rows[j])
  }

  /** `SELECT * ... WHERE p`, in table order. */
  function Select<T(!new)>(rows: seq<T>, p: T -> bool): (r: seq<T>)
    ensures forall x :: x in r <==> x in rows && p(x)
  {
    if |rows| == 0 then []
    else (if p(rows[0]) then [rows[0]] else []) + Select(rows[1..], p)
  }

  function Reverse<T>(s: seq<T>): (r: seq<T>)
    ensures |r| == |s|
    ensures forall i :: 0 <= i < |s| ==> r[i] == s[|s| - 1 - i]
  {
    if |s| == 0 then [] else Reverse(s[1..]) + [s[0]]
  }

  /** `SELECT * ... WHERE p ORDER BY created_at DESC`. */
  function NewestFirst<T(!new)>(rows: seq<T>, p: T -> bool): (r: seq<T>)
    ensures forall x :: x in r <==> x in rows && p(x)
  {
    var s := Select(rows, p);
    var r := Reverse(s);
    assert forall x :: x in r <==> x in s by {
      forall x | x in r ensures x in s {
        var i :| 0 <= i < |r| && r[i] == x;
        assert s[|s| - 1 - i] == x;
      }
      forall x | x in s ensures x in r {
        var i :| 0 <= i < |s| && s[i] == x;
        assert r[|s| - 1 - i] == x;
      }
    }
    r
  }

  /** The tail of an ascending table is ascending, and above its head. */
  lemma AscendingTail<T(!new)>(rows: seq<T>, key: T -> Id)
    requires Ascending(rows, key) && |rows| > 0
    ensures Ascending(rows[1..], key)
    ensures forall x :: x in rows[1..] ==> key(rows[0]) < key(x)
  {
    var tail := rows[1..];
    forall i, j | 0 <= i < j < |tail| ensures key(tail[i]) < key(tail[j]) {
      assert tail[i] == rows[i + 1] && tail[j] == rows[j + 1];
    }
    forall x | x in tail ensures key(rows[0]) < key(x) {
      var i :| 0 <= i < |tail| && tail[i] == x;
      assert rows[i + 1] == x;
    }
  }

  /** A row below every row of an ascending table can head it. */
  lemma AscendingCons<T(!new)>(x: T, rest: seq<T>, key: T -> Id)
    requires Ascending(rest, key)
    requires forall y :: y in rest ==> key(x) < key(y)
    ensures Ascending([x] + rest, key)
  {
    var r := [x] + rest;
    forall i, j | 0 <= i < j < |r| ensures key(r[i]) < key(r[j]) {
      assert r[j] == rest[j - 1];
      if 0 < i {
        assert r[i] == rest[i - 1];
      }
    }
  }

  /** Selecting rows keeps the table's order. */
  lemma {:induction false} SelectAscending<T(!new)>(rows: seq<T>, p: T -> bool, key: T -> Id)
    requires Ascending(rows, key)
    ensures Ascending(Select(rows, p), key)
  {
    if |rows| > 0 {
      AscendingTail(rows, key);
      SelectAscending(rows[1..], p, key);
      var rest := Select(rows[1..], p);
      if p(rows[0]) {
        AscendingCons(rows[0], rest, key);
      } else {
        assert Select(rows, p) == rest;
      }
    }
  }

  /** Newest first really is newest first: the keys strictly decrease along the result. */
  lemma NewestFirstDescending<T(!new)>(rows: seq<T>, p: T -> bool, key: T -> Id)
    requires Ascending(rows, key)
    ensures Descending(NewestFirst(rows, p), key)
  {
    SelectAscending(rows, p, key);
  }
}
