/** The dashboard summary (backend/controllers/dashboardController.js): a
    read-only view over the store with document counts, the low-stock
    products, per-type movement totals and the five newest ledger entries. */
module Dashboard {
  import opened Base
  import opened ProductSchema
  import opened TransactionSchema
  import opened StockLedger

  /** The dashboard's low-stock test, `quantity <= minStockLevel` evaluated by
      the database. A null level sorts below every number, so a product
      whose level is null is never low stock here. */
  predicate IsLowStock(p: Product)
  {
    p.minStockLevel.Some? && p.quantity <= p.minStockLevel.value
  }

  /** The products the low-stock query returns, keyed by identity. */
  function LowStockProducts(products: map<ProductId, Product>): (r: map<ProductId, Product>)
    ensures r.Keys <= products.Keys
    ensures forall id :: id in r ==> r[id] == products[id]
    ensures forall id :: id in products ==> (id in r <==> IsLowStock(products[id]))
    ensures |r| <= |products|
  {
    var r := map id | id in products && IsLowStock(products[id]) :: products[id];
    SubsetCardinality(r.Keys, products.Keys);
    r
  }

  lemma {:induction false} SubsetCardinality<T>(a: set<T>, b: set<T>)
    requires a <= b
    ensures |a| <= |b|
    decreases |b|
  {
    if a != {} {
      var x :| x in a;
      SubsetCardinality(a - {x}, b - {x});
    }
  }

  /** A product created without a level gets the default 5, so it is low
      stock exactly when it holds at most 5 units; one created without a
      quantity as well starts out low. */
  lemma DefaultLevelLowStock(input: ProductInput)
    requires input.minStockLevel.Absent?
    requires Create(input).Success?
    ensures IsLowStock(Create(input).value) <==> Create(input).value.quantity <= 5
    ensures input.quantity.Absent? ==> IsLowStock(Create(input).value)
  {
  }

  /** A worked run: ten units with a level of 5; taking out 4 leaves 6 and
      one OUT entry, not low; taking out 5 more leaves 1, low; taking out 2
      more is refused and the stock stays at 1. */
  lemma DrawDownScenario(user: UserId)
    ensures
      var s0 := Store(map[1 := Product("Widget", "Tools", 10, 1.0, Some(5), None)], {}, {}, [], 0);
      var r1 := StockOut(s0, 1, 4, user, 0);
      && r1.Success? && r1.value.product.quantity == 6 && !IsLowStock(r1.value.product)
      && |r1.value.store.ledger| == 1 && r1.value.store.ledger[0].txType == Out
      && r1.value.store.ledger[0].quantity == 4
      && var r2 := StockOut(r1.value.store, 1, 5, user, 0);
      && r2.Success? && r2.value.product.quantity == 1 && IsLowStock(r2.value.product)
      && StockOut(r2.value.store, 1, 2, user, 0) == Failure(InsufficientStock)
      && r2.value.store.products[1].quantity == 1
  {
  }

  /** One row of the per-type summary: a movement type and the sum of the
      quantities of all ledger entries of that type. */
  datatype SummaryEntry = SummaryEntry(txType: TxType, totalQuantity: int)

  /** The sum of the quantities of the entries of type `t`. */
  function TypeTotal(ledger: seq<Transaction>, t: TxType): int
  {
    if |ledger| == 0 then 0
    else TypeTotal(ledger[..|ledger| - 1], t) + (if ledger[|ledger| - 1].txType == t then ledger[|ledger| - 1].quantity else 0)
  }

  /** The number of entries of type `t`. */
  function TypeCount(ledger: seq<Transaction>, t: TxType): (n: nat)
    ensures n <= |ledger|
  {
    if |ledger| == 0 then 0
    else TypeCount(ledger[..|ledger| - 1], t) + (if ledger[|ledger| - 1].txType == t then 1 else 0)
  }

  lemma {:induction false} TypeCountPositive(ledger: seq<Transaction>, t: TxType)
    ensures TypeCount(ledger, t) > 0 <==> exists k :: 0 <= k < |ledger| && ledger[k].txType == t
  {
    if |ledger| > 0 {
      var init := ledger[..|ledger| - 1];
      TypeCountPositive(init, t);
      if exists k :: 0 <= k < |init| && init[k].txType == t {
        var k :| 0 <= k < |init| && init[k].txType == t;
        assert ledger[k].txType == t;
      }
      if exists k :: 0 <= k < |ledger| && ledger[k].txType == t {
        var k :| 0 <= k < |ledger| && ledger[k].txType == t;
        if k < |init| {
          assert init[k].txType == t;
        }
      }
    }
  }

  /** The per-type totals follow the ledger: a served movement adds its
      quantity to its own type's total and leaves the other type's total
      as it was; a rejected request or a listing changes neither. */
  lemma HandleMovesTypeTotal(s: Store, req: Request, t: TxType)
    ensures var r := Handle(s, req);
      TypeTotal(r.0.ledger, t) ==
        TypeTotal(s.ledger, t) + (if r.1.Created? && r.1.transaction.txType == t then r.1.transaction.quantity else 0)
  {
  }

  /** The group for type `t`: one entry if any movement of that type exists. */
  function Group(ledger: seq<Transaction>, t: TxType): seq<SummaryEntry>
  {
    if TypeCount(ledger, t) > 0 then [SummaryEntry(t, TypeTotal(ledger, t))] else []
  }

  /** Grouping the ledger by type and summing quantities. The database
      leaves the order of groups unspecified; this model lists IN first. */
  function StockSummary(ledger: seq<Transaction>): (r: seq<SummaryEntry>)
    ensures |r| <= 2
    ensures forall i, j :: 0 <= i < j < |r| ==> r[i].txType != r[j].txType
    ensures forall i :: 0 <= i < |r| ==> r[i].totalQuantity == TypeTotal(ledger, r[i].txType)
    ensures (exists i :: 0 <= i < |r| && r[i].txType == In) <==>
            (exists k :: 0 <= k < |ledger| && ledger[k].txType == In)
    ensures (exists i :: 0 <= i < |r| && r[i].txType == Out) <==>
            (exists k :: 0 <= k < |ledger| && ledger[k].txType == Out)
  {
    TypeCountPositive(ledger, In);
    TypeCountPositive(ledger, Out);
    var r := Group(ledger, In) + Group(ledger, Out);
    assert TypeCount(ledger, In) > 0 ==> r[0].txType == In;
    assert TypeCount(ledger, Out) > 0 ==> r[|r| - 1].txType == Out;
    assert forall i :: 0 <= i < |r| && r[i].txType == In ==> TypeCount(ledger, In) > 0;
    assert forall i :: 0 <= i < |r| && r[i].txType == Out ==> TypeCount(ledger, Out) > 0;
    r
  }

  /** How many entries the recent-activity list shows. */
  const RecentLimit: nat := 5

  /** Entries ordered by creation time, newest first. */
  ghost predicate NewestFirst(l: seq<Transaction>)
  {
    forall i, j :: 0 <= i < j < |l| ==> l[i].createdAt >= l[j].createdAt
  }

  /** Inserts `t` into a list before the first entry that is not newer
      than it. */
  function InsertByTime(t: Transaction, l: seq<Transaction>): (r: seq<Transaction>)
    ensures |r| == |l| + 1
    ensures forall x :: x in r <==> x == t || x in l
    ensures multiset(r) == multiset(l) + multiset{t}
  {
    if |l| == 0 || t.createdAt >= l[0].createdAt then
      [t] + l
    else
      assert l == [l[0]] + l[1..];
      [l[0]] + InsertByTime(t, l[1..])
  }

  /** Insertion keeps a newest-first list newest first. */
  lemma {:induction false} InsertKeepsNewestFirst(t: Transaction, l: seq<Transaction>)
    requires NewestFirst(l)
    ensures NewestFirst(InsertByTime(t, l))
  {
    if |l| > 0 && t.createdAt < l[0].createdAt {
      var rest := InsertByTime(t, l[1..]);
      InsertKeepsNewestFirst(t, l[1..]);
      var r := [l[0]] + rest;
      assert r == InsertByTime(t, l);
      forall i, j | 0 <= i < j < |r|
        ensures r[i].createdAt >= r[j].createdAt
      {
        if i == 0 {
          assert r[j] == rest[j - 1] && rest[j - 1] in rest;
          if r[j] != t {
            var k :| 0 <= k < |l[1..]| && l[1..][k] == r[j];
            assert l[k + 1] == r[j];
          }
        } else {
          assert r[i] == rest[i - 1] && r[j] == rest[j - 1];
        }
      }
    }
  }

  /** The ledger sorted by creation time, newest first. */
  function SortNewestFirst(l: seq<Transaction>): (r: seq<Transaction>)
    ensures NewestFirst(r)
    ensures |r| == |l|
    ensures multiset(r) == multiset(l)
  {
    if |l| == 0 then []
    else
      assert l == [l[0]] + l[1..];
      var sortedTail := SortNewestFirst(l[1..]);
      InsertKeepsNewestFirst(l[0], sortedTail);
      InsertByTime(l[0], sortedTail)
  }

  /** Of a newest-first list, no entry after position `n` is newer than one
      before it. */
  lemma CutNewestFirst(sorted: seq<Transaction>, n: nat)
    requires NewestFirst(sorted) && n <= |sorted|
    ensures NewestFirst(sorted[..n])
    ensures NoneNewerLeftOut(sorted, sorted[..n])
  {
    SplitMultiset(sorted, n);
    forall t, i | t in multiset(sorted) - multiset(sorted[..n]) && 0 <= i < n
      ensures t.createdAt <= sorted[..n][i].createdAt
    {
      assert t in sorted[n..];
      var k :| 0 <= k < |sorted[n..]| && sorted[n..][k] == t;
      assert sorted[n + k] == t;
    }
  }

  /** The recent-activity list: sort by `createdAt` descending, keep five. */
  function RecentTransactions(ledger: seq<Transaction>): (r: seq<Transaction>)
    ensures |r| == if |ledger| < RecentLimit then |ledger| else RecentLimit
    ensures NewestFirst(r)
    ensures multiset(r) <= multiset(ledger)
    ensures NoneNewerLeftOut(ledger, r)
  {
    var sorted := SortNewestFirst(ledger);
    var n := if |ledger| < RecentLimit then |ledger| else RecentLimit;
    SplitMultiset(sorted, n);
    CutNewestFirst(sorted, n);
    sorted[..n]
  }

  /** No entry of `ledger` left out of `r` is strictly newer than an entry
      kept in `r`. */
  ghost predicate NoneNewerLeftOut(ledger: seq<Transaction>, r: seq<Transaction>)
  {
    forall t, i :: t in multiset(ledger) - multiset(r) && 0 <= i < |r| ==> t.createdAt <= r[i].createdAt
  }

  lemma SplitMultiset(l: seq<Transaction>, n: nat)
    requires n <= |l|
    ensures multiset(l[..n]) <= multiset(l)
    ensures multiset(l) - multiset(l[..n]) == multiset(l[n..])
  {
    assert l == l[..n] + l[n..];
  }

  /** The summary object the dashboard endpoint responds with. */
  datatype Stats = Stats(
    totalProducts: nat,
    totalCategories: nat,
    totalSuppliers: nat,
    lowStockCount: nat,
    lowStockProducts: map<ProductId, Product>,
    stockSummary: seq<SummaryEntry>,
    recentTransactions: seq<Transaction>)

  /** Builds the dashboard summary from the store; it changes nothing. */
  function GetDashboardStats(s: Store): (r: Stats)
    ensures r.totalProducts == |s.products|
    ensures r.totalCategories == |s.categories|
    ensures r.totalSuppliers == |s.suppliers|
    ensures r.lowStockCount == |r.lowStockProducts| <= r.totalProducts
    ensures forall id :: id in s.products ==> (id in r.lowStockProducts <==> IsLowStock(s.products[id]))
    ensures forall id :: id in r.lowStockProducts ==> id in s.products && r.lowStockProducts[id] == s.products[id]
    ensures |r.recentTransactions| == if |s.ledger| < RecentLimit then |s.ledger| else RecentLimit
    ensures multiset(r.recentTransactions) <= multiset(s.ledger)
    ensures NewestFirst(r.recentTransactions) && NoneNewerLeftOut(s.ledger, r.recentTransactions)
    ensures |r.stockSummary| <= 2
    ensures forall i, j :: 0 <= i < j < |r.stockSummary| ==> r.stockSummary[i].txType != r.stockSummary[j].txType
    ensures forall i :: 0 <= i < |r.stockSummary| ==>
      r.stockSummary[i].totalQuantity == TypeTotal(s.ledger, r.stockSummary[i].txType)
    ensures (exists i :: 0 <= i < |r.stockSummary| && r.stockSummary[i].txType == In) <==>
            (exists k :: 0 <= k < |s.ledger| && s.ledger[k].txType == In)
    ensures (exists i :: 0 <= i < |r.stockSummary| && r.stockSummary[i].txType == Out) <==>
            (exists k :: 0 <= k < |s.ledger| && s.ledger[k].txType == Out)
  {
    var low := LowStockProducts(s.products);
    Stats(|s.products|, |s.categories|, |s.suppliers|, |low|, low,
          StockSummary(s.ledger), RecentTransactions(s.ledger))
  }
}
