/** The balance computation of the backend's database layer: a fold over the
    user's transaction rows, plus the fixed answers of local mode and of a
    failed query. */
module Balance {
  import opened Ledger

  /** The two columns the balance query selects. */
  datatype Row = Row(kind: TxType, amount: int)

  /** A row as the query returns it: the `amount` column is nullable. */
  datatype StoredRow = StoredRow(kind: TxType, amount: Option<int>)

  /** What the transactions query produced. */
  datatype QueryResult = Rows(rows: seq<StoredRow>) | QueryFailed

  /** Every returned row carries an amount. */
  predicate AllAmountsPresent(rows: seq<StoredRow>)
  {
    forall i :: 0 <= i < |rows| ==> rows[i].amount.Some?
  }

  /** The returned rows with their amounts read out, once none is NULL. */
  function Present(rows: seq<StoredRow>): (r: seq<Row>)
    requires AllAmountsPresent(rows)
    ensures |r| == |rows|
    ensures forall i :: 0 <= i < |rows| ==> r[i] == Row(rows[i].kind, rows[i].amount.value)
  {
    seq(|rows|, i requires 0 <= i < |rows| => Row(rows[i].kind, rows[i].amount.value))
  }

  /** Without credentials (or when the client could not be created) there is
      no database client and the service runs in local mode. */
  datatype Store = LocalMode | Connected(query: QueryResult)

  const LocalModeBalance: int := 100000
  const QueryErrorBalance: int := 0

  /** One step of the loop: an income row adds its amount; an expense and a
      transfer row both subtract theirs. */
  function Apply(balance: int, row: Row): (r: int)
    ensures row.kind == Income ==> r - balance == row.amount
    ensures row.kind == Expense || row.kind == Transfer ==> balance - r == row.amount
  {
    if row.kind == Income then balance + row.amount else balance - row.amount
  }

  /** The loop as a left fold: rows are applied in list order, from 0. The
      result is money in minus money out. */
  function Fold(rows: seq<Row>): (r: int)
    ensures r == Credits(rows) - Debits(rows)
  {
    if |rows| == 0 then 0 else Apply(Fold(rows[..|rows| - 1]), rows[|rows| - 1])
  }

  /** Total of the income rows. */
  function Credits(rows: seq<Row>): int
  {
    if |rows| == 0 then 0
    else Credits(rows[..|rows| - 1]) + (if rows[|rows| - 1].kind == Income then rows[|rows| - 1].amount else 0)
  }

  /** Total of the rows of every other type, `transfer` included. */
  function Debits(rows: seq<Row>): int
  {
    if |rows| == 0 then 0
    else Debits(rows[..|rows| - 1]) + (if rows[|rows| - 1].kind != Income then rows[|rows| - 1].amount else 0)
  }

  /** `get_user_balance`: fixed answers in local mode and on a failed query,
      otherwise the loop over the returned rows. A NULL amount makes the
      loop's `+=` or `-=` raise, which the same handler turns into 0. */
  method GetUserBalance(store: Store) returns (balance: int)
    ensures store.LocalMode? ==> balance == 100000
    ensures store == Connected(QueryFailed) ==> balance == 0
    ensures store.Connected? && store.query.Rows? && !AllAmountsPresent(store.query.rows) ==>
              balance == 0
    ensures store.Connected? && store.query.Rows? && AllAmountsPresent(store.query.rows) ==>
              balance == Credits(Present(store.query.rows)) - Debits(Present(store.query.rows))
  {
    match store
    case LocalMode =>
      return LocalModeBalance;
    case Connected(QueryFailed) =>
      return QueryErrorBalance;
    case Connected(Rows(rows)) =>
      balance := 0;
      var k := 0;
      while k < |rows|
        invariant 0 <= k <= |rows|
        invariant AllAmountsPresent(rows[..k])
        invariant balance == Fold(Present(rows[..k]))
      {
        if rows[k].amount.None? {
          assert !AllAmountsPresent(rows) by {
            assert rows[k].amount.None?;
          }
          return QueryErrorBalance;
        }
        assert AllAmountsPresent(rows[..k + 1]);
        assert Present(rows[..k + 1])[..k] == Present(rows[..k]);
        balance := Apply(balance, Row(rows[k].kind, rows[k].amount.value));
        k := k + 1;
      }
      assert rows[..k] == rows;
  }

  /** The empty history folds to 0. */
  lemma FoldEmpty()
    ensures Fold([]) == 0
  {
  }

  /** A single income row adds its amount; a row of any other type subtracts it. */
  lemma FoldSingle(row: Row)
    ensures row.kind == Income ==> Fold([row]) == row.amount
    ensures row.kind != Income ==> Fold([row]) == -row.amount
  {
  }

  /** Splitting the rows splits the balance. */
  lemma {:induction false} FoldAppend(a: seq<Row>, b: seq<Row>)
    ensures Fold(a + b) == Fold(a) + Fold(b)
    decreases |b|
  {
    if |b| == 0 {
      assert a + b == a;
    } else {
      var last := b[|b| - 1];
      assert (a + b)[..|a + b| - 1] == a + b[..|b| - 1];
      FoldAppend(a, b[..|b| - 1]);
      assert Fold(b) == Apply(Fold(b[..|b| - 1]), last);
    }
  }

  /** The balance does not depend on the order the query returns the rows in. */
  lemma {:induction false} FoldPermutation(a: seq<Row>, b: seq<Row>)
    requires multiset(a) == multiset(b)
    ensures Fold(a) == Fold(b)
    decreases |a|
  {
    if |a| == 0 {
      assert |b| == |multiset(b)| == 0;
    } else {
      var x := a[|a| - 1];
      var front := a[..|a| - 1];
      assert a == front + [x];
      assert x in multiset(b);
      var j :| 0 <= j < |b| && b[j] == x;
      var rest := b[..j] + b[j + 1..];
      assert b == b[..j] + [x] + b[j + 1..];
      assert multiset(front) == multiset(rest) by {
        assert multiset(a) == multiset(front) + multiset{x};
        assert multiset(b) == multiset(rest) + multiset{x};
        assert multiset(front) == multiset(a) - multiset{x};
        assert multiset(rest) == multiset(b) - multiset{x};
      }
      FoldPermutation(front, rest);
      calc {
        Fold(b);
        { FoldAppend(b[..j] + [x], b[j + 1..]); FoldAppend(b[..j], [x]); }
        Fold(b[..j]) + Fold([x]) + Fold(b[j + 1..]);
        { FoldAppend(b[..j], b[j + 1..]); }
        Fold(rest) + Fold([x]);
        Fold(front) + Fold([x]);
        { FoldAppend(front, [x]); }
        Fold(a);
      }
    }
  }

  /** The columns of a transaction that the balance query reads. */
  function RowOf(tx: Transaction): Row
  {
    Row(tx.kind, tx.amount)
  }

  function RowsOf(txs: seq<Transaction>): (rows: seq<Row>)
    ensures |rows| == |txs|
    ensures forall i :: 0 <= i < |txs| ==> rows[i] == RowOf(txs[i])
  {
    seq(|txs|, i requires 0 <= i < |txs| => RowOf(txs[i]))
  }

  /** The two rows `get_recent_transactions` returns in local mode. */
  const LocalTransactions: seq<Transaction> := [
    Transaction("1", Expense, 15000, "food", "Lunch", None, None),
    Transaction("2", Income, 50000, "income", "M-Pesa received", None, None)
  ]

  /** The local-mode rows fold to 35000, which is not the 100000 that local
      mode reports as the balance. */
  lemma LocalFixtureFold()
    ensures Fold(RowsOf(LocalTransactions)) == 35000
    ensures Fold(RowsOf(LocalTransactions)) != LocalModeBalance
  {
  }
}
