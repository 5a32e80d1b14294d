/**
 * The `transactions` table of bot.py and the read-only queries over it: the rows of one
 * user newest first (`list_transactions`, `get_transactions_since`), the balance
 * (`get_balance`) and the rows that `DELETE ... WHERE id=? AND telegram_id=?` keeps.
 */
module Rows {

  /** A Telegram user id. */
  type UserId = int

  /**
   * A timestamp. The table stores `datetime.now().isoformat()` text, a naive local wall-clock
   * time, and compares it as text. `isoformat()` leaves out the microseconds when they are
   * zero, but the shorter string is a prefix and sorts first, so the text still orders as the
   * times do, and a number stands for it.
   */
  type Date = nat

  /** One row of `transactions(id, telegram_id, type, amount, description, date)`. */
  datatype Transaction = Transaction(
    id: nat, owner: UserId, kind: string, amount: real, description: string, date: Date)

  /** The two values of the `type` column that the commands write. */
  const IncomeType: string := "receita"
  const ExpenseType: string := "gasto"

  /** The rows of `s` that `keep` accepts, in their order: a `WHERE` clause. */
  function Select(s: seq<Transaction>, keep: Transaction -> bool): (r: seq<Transaction>)
    ensures |r| <= |s|
    ensures forall t :: t in r <==> t in s && keep(t)
  {
    if s == [] then []
    else
      assert s == [s[0]] + s[1..];
      (if keep(s[0]) then [s[0]] else []) + Select(s[1..], keep)
  }

  lemma {:induction false} SelectAppend(a: seq<Transaction>, b: seq<Transaction>, keep: Transaction -> bool)
    ensures Select(a + b, keep) == Select(a, keep) + Select(b, keep)
  {
    if a != [] {
      assert (a + b)[1..] == a[1..] + b;
      SelectAppend(a[1..], b, keep);
    } else {
      assert a + b == b;
    }
  }

  /** `Select` drops no row exactly when every row passes the test. */
  lemma {:induction false} SelectKeepsAll(s: seq<Transaction>, keep: Transaction -> bool)
    ensures |Select(s, keep)| == |s| <==> forall t :: t in s ==> keep(t)
  {
    if s != [] {
      SelectKeepsAll(s[1..], keep);
      assert s == [s[0]] + s[1..];
    }
  }

  lemma {:induction false} SelectAll(s: seq<Transaction>, keep: Transaction -> bool)
    requires forall t :: t in s ==> keep(t)
    ensures Select(s, keep) == s
  {
    if s != [] {
      SelectAll(s[1..], keep);
    }
  }

  /** Selecting twice is selecting once, when the second test implies the first. */
  lemma {:induction false} SelectSelect(s: seq<Transaction>, p: Transaction -> bool, q: Transaction -> bool)
    requires forall t :: q(t) ==> p(t)
    ensures Select(Select(s, p), q) == Select(s, q)
  {
    if s != [] {
      var head := if p(s[0]) then [s[0]] else [];
      assert Select(s, p) == head + Select(s[1..], p);
      SelectAppend(head, Select(s[1..], p), q);
      if p(s[0]) {
        assert Select(head, q) == if q(s[0]) then [s[0]] else [];
      } else {
        assert Select(head, q) == [];
      }
      SelectSelect(s[1..], p, q);
    }
  }

  /** The test `telegram_id=?` */
  function IsOwner(u: UserId): Transaction -> bool {
    (t: Transaction) => t.owner == u
  }

  /** The test `telegram_id=? AND type=?` */
  function IsEntry(u: UserId, kind: string): Transaction -> bool {
    (t: Transaction) => t.owner == u && t.kind == kind
  }

  /** The test that `DELETE ... WHERE id=? AND telegram_id=?` fails: the row stays. */
  function Stays(u: UserId, txId: int): Transaction -> bool {
    (t: Transaction) => !(t.id == txId && t.owner == u)
  }

  /** `WHERE telegram_id=?` */
  function OwnedBy(rows: seq<Transaction>, u: UserId): seq<Transaction> {
    Select(rows, IsOwner(u))
  }

  /** `WHERE telegram_id=? AND date>=?` */
  function InWindow(rows: seq<Transaction>, u: UserId, since: Date): seq<Transaction> {
    Select(rows, (t: Transaction) => t.owner == u && t.date >= since)
  }

  /** `WHERE telegram_id=? AND type=?` */
  function OfKind(rows: seq<Transaction>, u: UserId, kind: string): seq<Transaction> {
    Select(rows, IsEntry(u, kind))
  }

  /** The rows that survive `DELETE FROM transactions WHERE id=? AND telegram_id=?`. */
  function Without(rows: seq<Transaction>, u: UserId, txId: int): seq<Transaction> {
    Select(rows, Stays(u, txId))
  }

  /** `ORDER BY date DESC`: no row is newer than a row before it. */
  predicate NewestFirst(s: seq<Transaction>) {
    forall i, j :: 0 <= i < j < |s| ==> s[i].date >= s[j].date
  }

  function InsertByDate(t: Transaction, s: seq<Transaction>): (r: seq<Transaction>)
    requires NewestFirst(s)
    ensures NewestFirst(r)
    ensures multiset(r) == multiset(s) + multiset{t}
  {
    if s == [] || t.date >= s[0].date then [t] + s
    else
      var rest := InsertByDate(t, s[1..]);
      InsertBehindHead(t, s, rest);
      [s[0]] + rest
  }

  lemma InsertBehindHead(t: Transaction, s: seq<Transaction>, rest: seq<Transaction>)
    requires NewestFirst(s) && s != [] && t.date < s[0].date
    requires NewestFirst(rest) && multiset(rest) == multiset(s[1..]) + multiset{t}
    ensures NewestFirst([s[0]] + rest)
    ensures multiset([s[0]] + rest) == multiset(s) + multiset{t}
  {
    assert s == [s[0]] + s[1..];
    forall j | 0 <= j < |rest| ensures rest[j].date <= s[0].date {
      var x := rest[j];
      assert x in multiset(rest);
      if x != t {
        assert x in multiset(s[1..]);
        var k :| 0 <= k < |s[1..]| && s[1..][k] == x;
        assert s[k + 1] == x;
      }
    }
  }

  /**
   * The rows of `s` newest first. SQLite leaves the order of rows with equal dates open;
   * this sort fixes one such order, and nothing below depends on which.
   */
  function SortByDate(s: seq<Transaction>): (r: seq<Transaction>)
    ensures NewestFirst(r)
    ensures multiset(r) == multiset(s)
  {
    if s == [] then []
    else
      assert s == [s[0]] + s[1..];
      InsertByDate(s[0], SortByDate(s[1..]))
  }

  /** SQLite's `LIMIT n`: the first `n` rows; a negative limit means no limit. */
  function Limit(s: seq<Transaction>, limit: int): (r: seq<Transaction>)
    ensures |r| == if 0 <= limit < |s| then limit else |s|
    ensures r <= s
  {
    if 0 <= limit < |s| then s[..limit] else s
  }

  /** The limit `list_transactions` uses when its caller gives none. */
  const DefaultLimit: int := 100

  /** `list_transactions(u, limit)`: `u`'s rows, newest first, at most `limit` of them. */
  function ListTransactions(rows: seq<Transaction>, u: UserId, limit: int := DefaultLimit): (r: seq<Transaction>)
    ensures forall t :: t in r ==> t in rows && t.owner == u
    ensures NewestFirst(r)
    ensures |r| == if 0 <= limit < |OwnedBy(rows, u)| then limit else |OwnedBy(rows, u)|
    ensures multiset(r) <= multiset(OwnedBy(rows, u))
  {
    var owned := OwnedBy(rows, u);
    var sorted := SortByDate(owned);
    LimitSorted(owned, sorted, limit);
    Limit(sorted, limit)
  }

  lemma LimitSorted(owned: seq<Transaction>, sorted: seq<Transaction>, limit: int)
    requires multiset(sorted) == multiset(owned)
    ensures |sorted| == |owned|
    ensures multiset(Limit(sorted, limit)) <= multiset(owned)
    ensures forall t :: t in Limit(sorted, limit) ==> t in owned
  {
    assert |sorted| == |multiset(sorted)| == |multiset(owned)| == |owned|;
    var r := Limit(sorted, limit);
    assert sorted == r + sorted[|r|..];
    assert multiset(sorted) == multiset(r) + multiset(sorted[|r|..]);
    SubMultisetMembers(r, owned);
  }

  /** `get_transactions_since(u, since)`: exactly `u`'s rows dated `since` or later, newest first. */
  function TransactionsSince(rows: seq<Transaction>, u: UserId, since: Date): (r: seq<Transaction>)
    ensures forall t :: t in r <==> t in rows && t.owner == u && t.date >= since
    ensures NewestFirst(r)
    ensures multiset(r) == multiset(InWindow(rows, u, since))
  {
    var window := InWindow(rows, u, since);
    var r := SortByDate(window);
    SubMultisetMembers(r, window);
    SubMultisetMembers(window, r);
    r
  }

  lemma SubMultisetMembers(a: seq<Transaction>, b: seq<Transaction>)
    requires multiset(a) <= multiset(b)
    ensures forall t :: t in a ==> t in b
  {
    forall t | t in a ensures t in b {
      assert t in multiset(a);
    }
  }

  /** `SUM(amount)`, with `COALESCE(..., 0)` for no rows. */
  function Total(s: seq<Transaction>): real {
    if s == [] then 0.0 else s[0].amount + Total(s[1..])
  }

  /** `get_balance(u)`: the sum of `u`'s income rows minus the sum of `u`'s expense rows. */
  function Balance(rows: seq<Transaction>, u: UserId): real {
    Total(OfKind(rows, u, IncomeType)) - Total(OfKind(rows, u, ExpenseType))
  }

  /** What one row adds to `u`'s balance. */
  function Effect(t: Transaction, u: UserId): real {
    if t.owner != u then 0.0
    else if t.kind == IncomeType then t.amount
    else if t.kind == ExpenseType then -t.amount
    else 0.0
  }

  /** The balance as a running sum over the rows, one signed amount at a time. */
  function Net(rows: seq<Transaction>, u: UserId): real {
    if rows == [] then 0.0 else Effect(rows[0], u) + Net(rows[1..], u)
  }

  /** Ids are distinct, as a primary key makes them. */
  predicate UniqueIds(rows: seq<Transaction>) {
    forall i, j :: 0 <= i < j < |rows| ==> rows[i].id != rows[j].id
  }

  /** A row of `u` that `list_transactions` leaves out is no newer than any row it returns. */
  lemma ListOmitsOnlyOlder(rows: seq<Transaction>, u: UserId, limit: int, t: Transaction)
    requires t in OwnedBy(rows, u) && t !in ListTransactions(rows, u, limit)
    ensures forall x :: x in ListTransactions(rows, u, limit) ==> x.date >= t.date
  {
    var owned := OwnedBy(rows, u);
    var sorted := SortByDate(owned);
    var r := Limit(sorted, limit);
    assert r == ListTransactions(rows, u, limit);
    assert t in multiset(owned);
    assert t in multiset(sorted);
    var k :| 0 <= k < |sorted| && sorted[k] == t;
    assert k >= |r|;
    forall x | x in r ensures x.date >= t.date {
      var i :| 0 <= i < |r| && r[i] == x;
      assert sorted[i] == x;
    }
  }

  /** While `u` has fewer rows than the limit, a row just added for `u` is listed. */
  lemma AddedRowIsListed(rows: seq<Transaction>, t: Transaction, limit: int)
    requires limit < 0 || |OwnedBy(rows, t.owner)| < limit
    ensures t in ListTransactions(rows + [t], t.owner, limit)
  {
    var u := t.owner;
    SelectAppend(rows, [t], IsOwner(u));
    assert Select([t], IsOwner(u)) == [t];
    var owned := OwnedBy(rows + [t], u);
    assert owned == OwnedBy(rows, u) + [t];
    var sorted := SortByDate(owned);
    LimitSorted(owned, sorted, limit);
    assert Limit(sorted, limit) == sorted;
    assert t in multiset(owned);
  }

  lemma {:induction false} TotalAppend(a: seq<Transaction>, b: seq<Transaction>)
    ensures Total(a + b) == Total(a) + Total(b)
  {
    if a != [] {
      assert (a + b)[1..] == a[1..] + b;
      TotalAppend(a[1..], b);
    } else {
      assert a + b == b;
    }
  }

  lemma {:induction false} NetAppend(a: seq<Transaction>, b: seq<Transaction>, u: UserId)
    ensures Net(a + b, u) == Net(a, u) + Net(b, u)
  {
    if a != [] {
      assert (a + b)[1..] == a[1..] + b;
      NetAppend(a[1..], b, u);
    } else {
      assert a + b == b;
    }
  }

  lemma TotalOfKindStep(rows: seq<Transaction>, u: UserId, kind: string)
    requires rows != []
    ensures Total(OfKind(rows, u, kind))
         == (if rows[0].owner == u && rows[0].kind == kind then rows[0].amount else 0.0)
            + Total(OfKind(rows[1..], u, kind))
  {
    var head := if IsEntry(u, kind)(rows[0]) then [rows[0]] else [];
    assert OfKind(rows, u, kind) == head + OfKind(rows[1..], u, kind);
    TotalAppend(head, OfKind(rows[1..], u, kind));
  }

  /** The two `SUM` queries of `get_balance` agree with one signed running sum over the rows. */
  lemma {:induction false} BalanceIsNet(rows: seq<Transaction>, u: UserId)
    ensures Balance(rows, u) == Net(rows, u)
  {
    if rows != [] {
      TotalOfKindStep(rows, u, IncomeType);
      TotalOfKindStep(rows, u, ExpenseType);
      BalanceIsNet(rows[1..], u);
    }
  }

  /** Recording a row changes `u`'s balance by that row's signed amount, and by nothing for another user's row or a row of another type. */
  lemma BalanceAfterAdd(rows: seq<Transaction>, t: Transaction, u: UserId)
    ensures Balance(rows + [t], u) == Balance(rows, u) + Effect(t, u)
    ensures t.owner != u || (t.kind != IncomeType && t.kind != ExpenseType) ==> Balance(rows + [t], u) == Balance(rows, u)
  {
    BalanceIsNet(rows + [t], u);
    BalanceIsNet(rows, u);
    NetAppend(rows, [t], u);
    assert Net([t], u) == Effect(t, u);
  }

  /** Only `u`'s rows count towards `u`'s balance. */
  lemma {:induction false} NetOfOwnRows(rows: seq<Transaction>, u: UserId)
    ensures Net(rows, u) == Net(OwnedBy(rows, u), u)
  {
    if rows != [] {
      var h := rows[0];
      var head := if h.owner == u then [h] else [];
      assert OwnedBy(rows, u) == head + OwnedBy(rows[1..], u);
      NetAppend(head, OwnedBy(rows[1..], u), u);
      NetOfOwnRows(rows[1..], u);
    }
  }

  /** `get_balance(u)` ignores other users' rows, and is 0 when `u` has none. */
  lemma BalanceOfOwnRows(rows: seq<Transaction>, u: UserId)
    ensures Balance(rows, u) == Balance(OwnedBy(rows, u), u)
    ensures OwnedBy(rows, u) == [] ==> Balance(rows, u) == 0.0
  {
    BalanceIsNet(rows, u);
    BalanceIsNet(OwnedBy(rows, u), u);
    NetOfOwnRows(rows, u);
  }

  /** A delete that matches no row keeps the table as it is. */
  lemma WithoutNoMatch(rows: seq<Transaction>, u: UserId, txId: int)
    requires forall t :: t in rows ==> !(t.id == txId && t.owner == u)
    ensures Without(rows, u, txId) == rows
  {
    SelectAll(rows, Stays(u, txId));
  }

  lemma OthersStay(rows: seq<Transaction>, u: UserId, txId: int, i: nat)
    requires UniqueIds(rows) && i < |rows| && rows[i].id == txId
    ensures forall t :: t in rows[..i] ==> Stays(u, txId)(t)
    ensures forall t :: t in rows[i + 1..] ==> Stays(u, txId)(t)
  {
    forall t | t in rows[..i] ensures t.id != txId {
      var k :| 0 <= k < i && rows[..i][k] == t;
      assert rows[k] == t;
    }
    forall t | t in rows[i + 1..] ensures t.id != txId {
      var k :| 0 <= k < |rows| - i - 1 && rows[i + 1..][k] == t;
      assert rows[i + 1 + k] == t;
    }
  }

  /** With distinct ids, a delete that matches row `i` removes that row and no other. */
  lemma WithoutRemovesOne(rows: seq<Transaction>, u: UserId, txId: int, i: nat)
    requires UniqueIds(rows) && i < |rows| && rows[i].id == txId && rows[i].owner == u
    ensures Without(rows, u, txId) == rows[..i] + rows[i + 1..]
  {
    var keep := Stays(u, txId);
    var a, x, b := rows[..i], rows[i], rows[i + 1..];
    assert rows == a + [x] + b;
    OthersStay(rows, u, txId, i);
    assert Select([x], keep) == [] by {
      assert [x][1..] == [];
    }
    calc {
      Without(rows, u, txId);
      Select(a + [x] + b, keep);
      { SelectAppend(a + [x], b, keep); }
      Select(a + [x], keep) + Select(b, keep);
      { SelectAppend(a, [x], keep); }
      Select(a, keep) + Select([x], keep) + Select(b, keep);
      { SelectAll(a, keep); SelectAll(b, keep); }
      a + [] + b;
    }
  }

  /** A delete for user `u` leaves every other user's rows exactly as they were. */
  lemma WithoutKeepsOtherOwners(rows: seq<Transaction>, u: UserId, txId: int, v: UserId)
    requires v != u
    ensures OwnedBy(Without(rows, u, txId), v) == OwnedBy(rows, v)
  {
    SelectSelect(rows, Stays(u, txId), IsOwner(v));
  }

  /** Deleting row `i` takes its signed amount back out of the balance. */
  lemma BalanceAfterDelete(rows: seq<Transaction>, u: UserId, txId: int, i: nat, v: UserId)
    requires UniqueIds(rows) && i < |rows| && rows[i].id == txId && rows[i].owner == u
    ensures Balance(Without(rows, u, txId), v) == Balance(rows, v) - Effect(rows[i], v)
  {
    WithoutRemovesOne(rows, u, txId, i);
    assert rows == rows[..i] + ([rows[i]] + rows[i + 1..]);
    NetAppend(rows[..i], [rows[i]] + rows[i + 1..], v);
    NetAppend([rows[i]], rows[i + 1..], v);
    NetAppend(rows[..i], rows[i + 1..], v);
    assert Net([rows[i]], v) == Effect(rows[i], v);
    BalanceIsNet(rows, v);
    BalanceIsNet(Without(rows, u, txId), v);
  }
}
