/**
 The append-only table credits_ledger and the queries made on it: a sum, a filter and a first match
 under a WHERE clause.  A row's id is its position, so ids are fresh by construction.
 */
module Ledger {
  import opened Prelude

  datatype Kind = Grant | Usage | Trade | RefundClawback | Adjustment

  datatype RefType = UsageRef | PurchaseRef | SaleRef | InvoiceRef | PackRef | RefundRef

  datatype Ref = OfUuid(id: Uuid) | OfText(text: string)

  datatype Entry = Entry(
    account: Uuid, kind: Kind, amount: int, refType: RefType, ref: Ref,
    counterparty: Option<Uuid>, createdBy: Option<Uuid>)

  /** A conjunction of column tests; None leaves the column free. */
  datatype Where = Where(
    account: Option<Uuid>, kind: Option<Kind>, refType: Option<RefType>, ref: Option<Ref>)

  const EVERYTHING := Where(None, None, None, None)

  function OfAccount(a: Uuid): Where { EVERYTHING.(account := Some(a)) }

  function OfKind(k: Kind): Where { EVERYTHING.(kind := Some(k)) }

  predicate Test<T(==)>(column: Option<T>, value: T) {
    column.Some? ==> column.value == value
  }

  predicate Selects(w: Where, e: Entry) {
    Test(w.account, e.account) && Test(w.kind, e.kind) && Test(w.refType, e.refType) && Test(w.ref, e.ref)
  }

  function SumWhere(rows: seq<Entry>, w: Where): int {
    if rows == [] then 0
    else
      var last := rows[|rows| - 1];
      SumWhere(rows[..|rows| - 1], w) + if Selects(w, last) then last.amount else 0
  }

  function Balance(rows: seq<Entry>, a: Uuid): int { SumWhere(rows, OfAccount(a)) }

  function Rows(rows: seq<Entry>, w: Where): seq<Entry> {
    if rows == [] then []
    else
      var last := rows[|rows| - 1];
      Rows(rows[..|rows| - 1], w) + if Selects(w, last) then [last] else []
  }

  /** The id of the oldest row that the clause selects. */
  function FirstWhere(rows: seq<Entry>, w: Where): (r: Option<nat>)
    ensures r.Some? ==> r.value < |rows| && Selects(w, rows[r.value])
    ensures r.Some? ==> forall j :: 0 <= j < r.value ==> !Selects(w, rows[j])
    ensures r.None? ==> forall j :: 0 <= j < |rows| ==> !Selects(w, rows[j])
  {
    if rows == [] then None
    else
      var n := |rows| - 1;
      match FirstWhere(rows[..n], w)
      case Some(i) => Some(i)
      case None => if Selects(w, rows[n]) then Some(n) else None
  }

  lemma {:induction false} SumAppend(a: seq<Entry>, b: seq<Entry>, w: Where)
    ensures SumWhere(a + b, w) == SumWhere(a, w) + SumWhere(b, w)
  {
    if b == [] {
      assert a + b == a;
    } else {
      var n := |b| - 1;
      assert (a + b)[..|a + b| - 1] == a + b[..n];
      SumAppend(a, b[..n], w);
    }
  }

  lemma {:induction false} RowsAppend(a: seq<Entry>, b: seq<Entry>, w: Where)
    ensures Rows(a + b, w) == Rows(a, w) + Rows(b, w)
  {
    if b == [] {
      assert a + b == a;
    } else {
      var n := |b| - 1;
      assert (a + b)[..|a + b| - 1] == a + b[..n];
      RowsAppend(a, b[..n], w);
    }
  }

  lemma PairRows(x: Entry, y: Entry, w: Where)
    ensures Rows([x, y], w) == (if Selects(w, x) then [x] else []) + if Selects(w, y) then [y] else []
    ensures SumWhere([x, y], w) == (if Selects(w, x) then x.amount else 0) + if Selects(w, y) then y.amount else 0
  {
    assert [x, y] == [x] + [y] && [x][..0] == [] && [y][..0] == [];
    RowsAppend([x], [y], w);
    SumAppend([x], [y], w);
    assert Rows([x], w) == (if Selects(w, x) then [x] else []);
    assert Rows([y], w) == (if Selects(w, y) then [y] else []);
  }

  lemma {:induction false} RowsMembers(rows: seq<Entry>, w: Where, e: Entry)
    ensures e in Rows(rows, w) <==> e in rows && Selects(w, e)
  {
    if rows != [] {
      var n := |rows| - 1;
      RowsMembers(rows[..n], w, e);
      assert rows == rows[..n] + [rows[n]];
    }
  }

  /** Appending one row moves every sum by that row alone. */
  lemma SumPush(a: seq<Entry>, e: Entry, w: Where)
    ensures SumWhere(a + [e], w) == SumWhere(a, w) + if Selects(w, e) then e.amount else 0
  {
    assert (a + [e])[..|a|] == a;
  }

  /** A first match stays the first match of every longer ledger. */
  lemma FirstWhereStable(a: seq<Entry>, b: seq<Entry>, w: Where)
    requires a <= b && FirstWhere(a, w).Some?
    ensures FirstWhere(b, w) == FirstWhere(a, w)
  {
    var i := FirstWhere(a, w).value;
    assert Selects(w, b[i]);
    assert forall j :: 0 <= j < i ==> b[j] == a[j];
  }

  ghost function AnyOf(accounts: set<Uuid>): (a: Uuid)
    requires accounts != {}
    ensures a in accounts
  {
    var a :| a in accounts;
    a
  }

  /** The sum of the balances of a set of accounts. */
  ghost function SumOfBalances(accounts: set<Uuid>, rows: seq<Entry>): int {
    if accounts == {} then 0
    else
      var a := AnyOf(accounts);
      Balance(rows, a) + SumOfBalances(accounts - {a}, rows)
  }

  lemma {:induction false} SumOfBalancesPush(accounts: set<Uuid>, rows: seq<Entry>, e: Entry)
    ensures SumOfBalances(accounts, rows + [e])
         == SumOfBalances(accounts, rows) + if e.account in accounts then e.amount else 0
  {
    if accounts != {} {
      var a := AnyOf(accounts);
      SumPush(rows, e, OfAccount(a));
      SumOfBalancesPush(accounts - {a}, rows, e);
    }
  }

  /** Splitting the ledger by account loses nothing: the balances add up to the ledger total. */
  lemma {:induction false} BalancesAddUp(accounts: set<Uuid>, rows: seq<Entry>)
    requires forall e :: e in rows ==> e.account in accounts
    ensures SumOfBalances(accounts, rows) == SumWhere(rows, EVERYTHING)
  {
    if rows == [] {
      NoRowsNoBalances(accounts);
    } else {
      var n := |rows| - 1;
      assert rows == rows[..n] + [rows[n]];
      BalancesAddUp(accounts, rows[..n]);
      SumOfBalancesPush(accounts, rows[..n], rows[n]);
    }
  }

  lemma {:induction false} NoRowsNoBalances(accounts: set<Uuid>)
    ensures SumOfBalances(accounts, []) == 0
  {
    if accounts != {} {
      NoRowsNoBalances(accounts - {AnyOf(accounts)});
    }
  }

  /** Every row has one of the five kinds. */
  lemma {:induction false} KindsAddUp(rows: seq<Entry>)
    ensures SumWhere(rows, EVERYTHING)
         == SumWhere(rows, OfKind(Grant)) + SumWhere(rows, OfKind(Usage)) + SumWhere(rows, OfKind(Trade))
          + SumWhere(rows, OfKind(RefundClawback)) + SumWhere(rows, OfKind(Adjustment))
  {
    if rows != [] {
      var n := |rows| - 1;
      KindsAddUp(rows[..n]);
      assert Selects(EVERYTHING, rows[n]);
      assert forall k :: Selects(OfKind(k), rows[n]) <==> rows[n].kind == k;
    }
  }
}
