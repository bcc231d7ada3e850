/** The dashboard's derived numbers: the "days until broke" forecast, the
    7-day cash-flow series behind the chart, and the recent-transactions
    list. Money and time are exact integers; "now" is a parameter. */
module Forecast {
  import opened Ledger
  import Balance

  /** The forecast looks at this many list positions; the chart has this many buckets. */
  const Window: nat := 7
  /** Milliseconds in a day: 1000 * 60 * 60 * 24. */
  const DayMs: int := 86400000

  /** The three shapes of the forecast: the 'Not enough data' sentinel,
      the '∞' sentinel, and a whole number of days. */
  datatype DaysLeft = NotEnoughData | Unbounded | Days(n: int)

  /** Sum of the amounts of the `expense` items; income and transfers add
      nothing, so a list without expenses totals 0, and non-negative amounts
      give a non-negative total. */
  function ExpenseTotal(txs: seq<Transaction>): (r: int)
    ensures (forall i :: 0 <= i < |txs| ==> txs[i].kind != Expense) ==> r == 0
    ensures (forall i :: 0 <= i < |txs| ==> txs[i].amount >= 0) ==> r >= 0
  {
    if |txs| == 0 then 0
    else ExpenseTotal(txs[..|txs| - 1]) + (if txs[|txs| - 1].kind == Expense then txs[|txs| - 1].amount else 0)
  }

  /** `calculateDaysUntilBroke`: fewer than 7 items gives the sentinel; else
      the expenses among the first 7 list positions set a daily burn of E/7,
      a non-positive burn gives '∞', and otherwise the answer is
      floor(balance / (E/7)), which is not clamped at zero. */
  function DaysUntilBroke(txs: seq<Transaction>, balance: int): (r: DaysLeft)
    ensures r == NotEnoughData <==> |txs| < Window
    ensures r == Unbounded <==> |txs| >= Window && ExpenseTotal(txs[..Window]) <= 0
    ensures r.Days? ==> |txs| >= Window && ExpenseTotal(txs[..Window]) > 0
    ensures r.Days? ==>
              var e := ExpenseTotal(txs[..Window]);
              r.n * e <= Window * balance < (r.n + 1) * e
  {
    if |txs| < Window then NotEnoughData
    else
      var total := ExpenseTotal(txs[..Window]);
      if total <= 0 then Unbounded
      else
        var n := (Window * balance) / total;
        assert n * total <= Window * balance < (n + 1) * total by {
          assert Window * balance == n * total + (Window * balance) % total;
        }
        Days(n)
  }

  /** Only the first 7 list positions feed the forecast: appending further
      items leaves the answer unchanged. */
  lemma OnlyFirstSevenCount(txs: seq<Transaction>, more: seq<Transaction>, balance: int)
    requires |txs| >= Window
    ensures DaysUntilBroke(txs + more, balance) == DaysUntilBroke(txs, balance)
  {
    assert (txs + more)[..Window] == txs[..Window];
  }

  /** Replacing one item of the expense total changes it by the difference
      of the two items' expense contributions. */
  lemma {:induction false} ExpenseTotalUpdate(txs: seq<Transaction>, i: nat, tx: Transaction)
    requires i < |txs|
    ensures ExpenseTotal(txs[i := tx]) ==
              ExpenseTotal(txs)
              - (if txs[i].kind == Expense then txs[i].amount else 0)
              + (if tx.kind == Expense then tx.amount else 0)
    decreases |txs|
  {
    var u := txs[i := tx];
    var front, last := txs[..|txs| - 1], txs[|txs| - 1];
    assert ExpenseTotal(txs) == ExpenseTotal(front) + (if last.kind == Expense then last.amount else 0);
    if i == |txs| - 1 {
      assert u[..|u| - 1] == front;
    } else {
      assert u[..|u| - 1] == front[i := tx];
      assert u[|u| - 1] == last;
      ExpenseTotalUpdate(front, i, tx);
    }
  }

  /** Items that are not expenses contribute nothing: any of them may be
      swapped for any other non-expense item, whatever its amount, without
      changing the forecast. */
  lemma NonExpenseItemsIgnored(txs: seq<Transaction>, i: nat, tx: Transaction, balance: int)
    requires i < |txs|
    requires txs[i].kind != Expense && tx.kind != Expense
    ensures DaysUntilBroke(txs[i := tx], balance) == DaysUntilBroke(txs, balance)
  {
    if |txs| >= Window && i < Window {
      assert txs[i := tx][..Window] == txs[..Window][i := tx];
      ExpenseTotalUpdate(txs[..Window], i, tx);
    } else if |txs| >= Window {
      assert txs[i := tx][..Window] == txs[..Window];
    }
  }

  /** The forecast is not clamped: a negative balance with a positive burn
      gives a negative day count, and a non-negative balance a non-negative one. */
  lemma SignFollowsBalance(txs: seq<Transaction>, balance: int)
    requires DaysUntilBroke(txs, balance).Days?
    ensures balance < 0 <==> DaysUntilBroke(txs, balance).n < 0
  {
  }

  /** Seven expenses of 7000 against a balance of 21000: the burn is 7000 a
      day, so the forecast is 3 days. */
  lemma SevenDayScenario(tx: Transaction)
    requires tx.kind == Expense && tx.amount == 7000
    ensures DaysUntilBroke([tx, tx, tx, tx, tx, tx, tx], 21000) == Days(3)
  {
    var s := [tx, tx, tx, tx, tx, tx, tx];
    assert s[..Window] == s;
    assert s[..1][..0] == [];
    assert s[..2][..1] == s[..1];
    assert s[..3][..2] == s[..2];
    assert s[..4][..3] == s[..3];
    assert s[..5][..4] == s[..4];
    assert s[..6][..5] == s[..5];
    assert s[..6] == s[..|s| - 1];
    assert ExpenseTotal(s[..1]) == 7000;
    assert ExpenseTotal(s[..2]) == 14000;
    assert ExpenseTotal(s[..3]) == 21000;
    assert ExpenseTotal(s[..4]) == 28000;
    assert ExpenseTotal(s[..5]) == 35000;
    assert ExpenseTotal(s[..6]) == 42000;
    assert ExpenseTotal(s) == 49000;
  }

  /** Whole days elapsed between createdAt and now, floored (the divisor is
      positive, so Dafny's division is the floor). A missing timestamp gives
      no day count. */
  function DaysAgo(now: int, createdAt: Option<int>): (r: Option<int>)
    ensures r.None? <==> createdAt.None?
    ensures r.Some? ==> r.value * DayMs <= now - createdAt.value < (r.value + 1) * DayMs
  {
    match createdAt
    case None => None
    case Some(t) =>
      var d := (now - t) / DayMs;
      assert now - t == d * DayMs + (now - t) % DayMs;
      Some(d)
  }

  /** The chart bucket a transaction lands in: 6 - daysAgo when daysAgo is in
      [0, 6], so today's items land in the last bucket; none otherwise. */
  function Bucket(now: int, tx: Transaction): (r: Option<nat>)
    ensures r.Some? <==> tx.createdAt.Some? && 0 <= now - tx.createdAt.value < Window * DayMs
    ensures r.Some? ==> r.value < Window
    ensures r.Some? ==> (Window - 1 - r.value) * DayMs <= now - tx.createdAt.value < (Window - r.value) * DayMs
  {
    match DaysAgo(now, tx.createdAt)
    case None => None
    case Some(d) => if 0 <= d < Window then Some(Window - 1 - d) else None
  }

  /** What one included transaction adds to its bucket: +amount for income,
      -amount for every other type. */
  function ChartDelta(tx: Transaction): (r: int)
    ensures r == Balance.Apply(0, Balance.Row(tx.kind, tx.amount))
    ensures r == tx.amount || r == -tx.amount
  {
    if tx.kind == Income then tx.amount else -tx.amount
  }

  /** Reference value of bucket i: the signed amounts of exactly those
      transactions that land in bucket i. */
  function BucketNet(txs: seq<Transaction>, now: int, i: nat): int
  {
    if |txs| == 0 then 0
    else
      var last := txs[|txs| - 1];
      BucketNet(txs[..|txs| - 1], now, i) + (if Bucket(now, last) == Some(i) then ChartDelta(last) else 0)
  }

  /** The chart amounts of `prepareChartData`: seven buckets starting at 0,
      and each transaction in the window adds its signed amount to its own
      bucket. */
  method ChartAmounts(txs: seq<Transaction>, now: int) returns (amounts: seq<int>)
    ensures |amounts| == Window
    ensures forall i :: 0 <= i < Window ==> amounts[i] == BucketNet(txs, now, i)
    ensures SeriesTotal(amounts) == Balance.Fold(WindowRows(txs, now))
  {
    amounts := [0, 0, 0, 0, 0, 0, 0];
    var k := 0;
    while k < |txs|
      invariant 0 <= k <= |txs|
      invariant |amounts| == Window
      invariant forall i :: 0 <= i < Window ==> amounts[i] == BucketNet(txs[..k], now, i)
    {
      var tx := txs[k];
      assert txs[..k + 1][..k] == txs[..k];
      var daysAgo := DaysAgo(now, tx.createdAt);
      if daysAgo.Some? && 0 <= daysAgo.value < Window {
        var slot := Window - 1 - daysAgo.value;
        amounts := amounts[slot := amounts[slot] + (if tx.kind == Income then tx.amount else -tx.amount)];
      }
      k := k + 1;
    }
    assert txs[..k] == txs;
    BucketsSumToWindowFold(txs, now);
  }

  /** Total of a 7-entry series. */
  function SeriesTotal(a: seq<int>): int
    requires |a| == Window
  {
    a[0] + a[1] + a[2] + a[3] + a[4] + a[5] + a[6]
  }

  /** The balance rows of the transactions that land in some bucket, in list order. */
  function WindowRows(txs: seq<Transaction>, now: int): (rows: seq<Balance.Row>)
    ensures |rows| <= |txs|
  {
    if |txs| == 0 then []
    else
      var last := txs[|txs| - 1];
      WindowRows(txs[..|txs| - 1], now) + (if Bucket(now, last).Some? then [Balance.RowOf(last)] else [])
  }

  /** Sum of the seven bucket totals. */
  function AllBuckets(txs: seq<Transaction>, now: int): int
  {
    BucketNet(txs, now, 0) + BucketNet(txs, now, 1) + BucketNet(txs, now, 2)
    + BucketNet(txs, now, 3) + BucketNet(txs, now, 4) + BucketNet(txs, now, 5)
    + BucketNet(txs, now, 6)
  }

  /** Adding one transaction at the end moves the sum of all buckets by its
      signed amount when it is in the window, and not at all otherwise. */
  lemma AllBucketsStep(txs: seq<Transaction>, now: int)
    requires |txs| > 0
    ensures var last := txs[|txs| - 1];
            AllBuckets(txs, now) ==
              AllBuckets(txs[..|txs| - 1], now) + (if Bucket(now, last).Some? then ChartDelta(last) else 0)
  {
  }

  /** The chart and the backend balance agree on sign: the seven buckets sum
      to the backend's balance fold over the in-window transactions. */
  lemma {:induction false} BucketsSumToWindowFold(txs: seq<Transaction>, now: int)
    ensures AllBuckets(txs, now) == Balance.Fold(WindowRows(txs, now))
  {
    if |txs| > 0 {
      var front := txs[..|txs| - 1];
      var last := txs[|txs| - 1];
      BucketsSumToWindowFold(front, now);
      AllBucketsStep(txs, now);
      if Bucket(now, last).Some? {
        Balance.FoldAppend(WindowRows(front, now), [Balance.RowOf(last)]);
        Balance.FoldSingle(Balance.RowOf(last));
      } else {
        assert WindowRows(txs, now) == WindowRows(front, now);
      }
    }
  }

  /** A bucket that no transaction lands in stays 0. */
  lemma {:induction false} UnusedBucketIsZero(txs: seq<Transaction>, now: int, i: nat)
    requires forall k :: 0 <= k < |txs| ==> Bucket(now, txs[k]) != Some(i)
    ensures BucketNet(txs, now, i) == 0
  {
    if |txs| > 0 {
      UnusedBucketIsZero(txs[..|txs| - 1], now, i);
    }
  }

  /** Future-dated items, items 7 or more days old and items without a
      timestamp land in no bucket, so they never move the chart. */
  lemma {:induction false} OutOfWindowIgnored(txs: seq<Transaction>, tx: Transaction, now: int, i: nat)
    requires tx.createdAt.None? || now < tx.createdAt.value || now - tx.createdAt.value >= Window * DayMs
    ensures BucketNet(txs + [tx], now, i) == BucketNet(txs, now, i)
  {
  }

  /** A transaction in the window moves exactly its own bucket, by its signed amount. */
  lemma InWindowLandsInOneBucket(txs: seq<Transaction>, tx: Transaction, now: int, i: nat)
    requires tx.createdAt.Some? && 0 <= now - tx.createdAt.value < Window * DayMs
    ensures var d := (now - tx.createdAt.value) / DayMs;
            BucketNet(txs + [tx], now, i)
            == BucketNet(txs, now, i) + (if i == Window - 1 - d then ChartDelta(tx) else 0)
  {
  }

  /** One row of the recent-transactions card: description, category and the
      signed amount label. */
  datatype RecentItem = RecentItem(description: string, category: string, amountLabel: string)

  /** The recent-transactions card: the first 5 list positions, each labelled
      '+' for income and '-' otherwise, followed by "TZS " and the locale
      rendering of the amount, which is a parameter. */
  function RecentList(txs: seq<Transaction>, formatAmount: int -> string): (r: seq<RecentItem>)
    ensures |r| == if |txs| < 5 then |txs| else 5
    ensures forall i :: 0 <= i < |r| ==>
              && r[i].description == txs[i].description
              && r[i].category == txs[i].category
              && |r[i].amountLabel| > 0
              && (r[i].amountLabel[0] == '+' <==> txs[i].kind == Income)
              && (r[i].amountLabel[0] == '-' <==> txs[i].kind != Income)
              && r[i].amountLabel[1..] == "TZS " + formatAmount(txs[i].amount)
  {
    var shown := if |txs| < 5 then txs else txs[..5];
    seq(|shown|, i requires 0 <= i < |shown| =>
      RecentItem(shown[i].description, shown[i].category,
                 (if shown[i].kind == Income then "+" else "-") + "TZS " + formatAmount(shown[i].amount)))
  }
}
