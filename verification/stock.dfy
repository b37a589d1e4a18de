/** The stock-movement service (backend/controllers/stockController.js):
    `stockIn` and `stockOut` adjust one product's quantity and append one
    ledger entry; `getStockTransactions` lists the ledger. Each request is
    one atomic step over an in-memory store. */
module StockLedger {
  import opened Base
  import opened ProductSchema
  import opened TransactionSchema

  /** The database as the stock service and the dashboard see it. */
  datatype Store = Store(
    products: map<ProductId, Product>,
    categories: set<CategoryId>,
    suppliers: set<SupplierId>,
    ledger: seq<Transaction>,
    clock: Timestamp)

  /** The two business errors; any other failure is out of the model. */
  datatype StockError = ProductNotFound | InsufficientStock

  /** A successful movement: the store after it, and the updated product and
      the created ledger entry that the response echoes. */
  datatype Movement = Movement(store: Store, product: Product, transaction: Transaction)

  /** `s'` differs from `s` at most in product `id`'s quantity, a ledger that
      grew by `t`, and a clock moved to `t`'s creation time. */
  ghost predicate MovedOnly(s: Store, s': Store, id: ProductId, t: Transaction)
  {
    && id in s.products
    && s'.products.Keys == s.products.Keys
    && s'.products[id] == s.products[id].(quantity := s'.products[id].quantity)
    && (forall other :: other in s.products && other != id ==> s'.products[other] == s.products[other])
    && s'.ledger == s.ledger + [t]
    && s'.categories == s.categories
    && s'.suppliers == s.suppliers
    && s.clock <= t.createdAt == s'.clock
  }

  /** Adds `quantity` to a product and records an IN entry. The quantity is
      not validated: zero and negative amounts are applied as given. */
  function StockIn(s: Store, productId: ProductId, quantity: int, supplierId: Option<SupplierId>,
                   user: UserId, elapsed: nat): (r: Result<Movement, StockError>)
    ensures r.Failure? <==> productId !in s.products
    ensures r.Failure? ==> r.error == ProductNotFound
    ensures r.Success? ==>
      && MovedOnly(s, r.value.store, productId, r.value.transaction)
      && r.value.store.products[productId].quantity == s.products[productId].quantity + quantity
      && r.value.product == r.value.store.products[productId]
      && r.value.transaction.product == productId
      && r.value.transaction.txType == In
      && r.value.transaction.quantity == quantity
      && r.value.transaction.supplier == supplierId
      && r.value.transaction.performedBy == Some(user)
  {
    if productId !in s.products then Failure(ProductNotFound)
    else
      var p := s.products[productId];
      var updated := p.(quantity := p.quantity + quantity);
      var now := s.clock + elapsed;
      var t := Transaction(productId, In, quantity, supplierId, Some(user), now);
      var s' := s.(products := s.products[productId := updated], ledger := s.ledger + [t], clock := now);
      Success(Movement(s', updated, t))
  }

  /** Removes `quantity` from a product if at least that much is in stock,
      and records an OUT entry without a supplier. */
  function StockOut(s: Store, productId: ProductId, quantity: int, user: UserId,
                    elapsed: nat): (r: Result<Movement, StockError>)
    ensures r.Failure? <==> productId !in s.products || s.products[productId].quantity < quantity
    ensures r.Failure? ==>
      (r.error == ProductNotFound <==> productId !in s.products)
    ensures r.Success? ==>
      && MovedOnly(s, r.value.store, productId, r.value.transaction)
      && r.value.store.products[productId].quantity == s.products[productId].quantity - quantity
      && r.value.product == r.value.store.products[productId]
      && r.value.transaction.product == productId
      && r.value.transaction.txType == Out
      && r.value.transaction.quantity == quantity
      && r.value.transaction.supplier == None
      && r.value.transaction.performedBy == Some(user)
  {
    if productId !in s.products then Failure(ProductNotFound)
    else
      var p := s.products[productId];
      if p.quantity < quantity then Failure(InsufficientStock)
      else
        var updated := p.(quantity := p.quantity - quantity);
        var now := s.clock + elapsed;
        var t := Transaction(productId, Out, quantity, None, Some(user), now);
        var s' := s.(products := s.products[productId := updated], ledger := s.ledger + [t], clock := now);
        Success(Movement(s', updated, t))
  }

  /** The entry a successful movement appends is exactly the one the
      transaction schema creates from what the controller passes it: the
      product id, the type string, the quantity, the supplier (IN only) and
      the acting user, stamped with the write time. */
  lemma MovementEntriesPassSchema(s: Store, productId: ProductId, quantity: int,
                                  supplierId: Option<SupplierId>, user: UserId, elapsed: nat)
    ensures var r := StockIn(s, productId, quantity, supplierId, user, elapsed);
      var c := CreateTransaction(TransactionInput(Some(productId), Some("IN"), Some(quantity), supplierId, Some(user)), s.clock + elapsed);
      r.Success? ==> c.Success? && c.value == r.value.transaction
    ensures var r := StockOut(s, productId, quantity, user, elapsed);
      var c := CreateTransaction(TransactionInput(Some(productId), Some("OUT"), Some(quantity), None, Some(user)), s.clock + elapsed);
      r.Success? ==> c.Success? && c.value == r.value.transaction
  {
  }

  /** One request to the stock routes. `elapsed` is the time since the
      previous write, standing in for the clock. */
  datatype Request =
    | StockInRequest(productId: ProductId, quantity: int, supplierId: Option<SupplierId>, user: UserId, elapsed: nat)
    | StockOutRequest(productId: ProductId, quantity: int, user: UserId, elapsed: nat)
    | ListTransactions

  /** The response body: the echoed product and entry (201), an error
      (404 or 400), or the ledger listing (200). */
  datatype Response =
    | Created(product: Product, transaction: Transaction)
    | Rejected(error: StockError)
    | Listing(transactions: seq<Transaction>)

  /** How much one ledger entry moves product `id`'s stock. */
  function Delta(t: Transaction, id: ProductId): int
  {
    if t.product == id then Signed(t) else 0
  }

  /** Serves one request against the store, returning the next store and the
      response. A rejected request and a listing leave the store as it was. */
  function Handle(s: Store, req: Request): (r: (Store, Response))
    ensures r.1.Rejected? || r.1.Listing? ==> r.0 == s
    ensures req.ListTransactions? ==> r.1 == Listing(s.ledger)
    ensures req.StockInRequest? ==> (r.1.Created? <==> req.productId in s.products)
    ensures req.StockOutRequest? ==>
      (r.1.Created? <==> req.productId in s.products && s.products[req.productId].quantity >= req.quantity)
    ensures req.StockInRequest? && !r.1.Created? ==> r.1 == Rejected(ProductNotFound)
    ensures req.StockOutRequest? && !r.1.Created? ==>
      r.1 == Rejected(if req.productId in s.products then InsufficientStock else ProductNotFound)
    ensures r.1.Created? ==>
      && !req.ListTransactions?
      && r.1.transaction.product == req.productId
      && r.1.transaction.quantity == req.quantity
      && (r.1.transaction.txType == In <==> req.StockInRequest?)
      && r.1.transaction.performedBy == Some(req.user)
      && r.1.transaction.supplier == (if req.StockInRequest? then req.supplierId else None)
      && req.productId in r.0.products
      && r.1.product == r.0.products[req.productId]
    ensures r.1.Created? ==> MovedOnly(s, r.0, r.1.transaction.product, r.1.transaction)
    ensures r.0.products.Keys == s.products.Keys
    ensures forall id :: id in s.products ==>
      r.0.products[id].quantity == s.products[id].quantity + (if r.1.Created? then Delta(r.1.transaction, id) else 0)
  {
    match req
    case ListTransactions => (s, Listing(s.ledger))
    case StockInRequest(id, q, supplier, user, elapsed) =>
      (match StockIn(s, id, q, supplier, user, elapsed)
       case Success(m) => (m.store, Created(m.product, m.transaction))
       case Failure(e) => (s, Rejected(e)))
    case StockOutRequest(id, q, user, elapsed) =>
      (match StockOut(s, id, q, user, elapsed)
       case Success(m) => (m.store, Created(m.product, m.transaction))
       case Failure(e) => (s, Rejected(e)))
  }

  /** The store after serving `reqs` in order. Requests never rewrite the
      ledger: the old ledger stays a prefix of the new one, and the sets of
      products, categories and suppliers stay the same. */
  function Run(s: Store, reqs: seq<Request>): (r: Store)
    ensures r.products.Keys == s.products.Keys
    ensures |s.ledger| <= |r.ledger| <= |s.ledger| + |reqs|
    ensures r.ledger[..|s.ledger|] == s.ledger
    ensures r.categories == s.categories && r.suppliers == s.suppliers
  {
    if |reqs| == 0 then s
    else Handle(Run(s, reqs[..|reqs| - 1]), reqs[|reqs| - 1]).0
  }

  /** The net movement of product `id` recorded in `ledger`: IN quantities
      minus OUT quantities. */
  function Net(ledger: seq<Transaction>, id: ProductId): int
  {
    if |ledger| == 0 then 0
    else Net(ledger[..|ledger| - 1], id) + Delta(ledger[|ledger| - 1], id)
  }

  lemma NetAppend(ledger: seq<Transaction>, t: Transaction, id: ProductId)
    ensures Net(ledger + [t], id) == Net(ledger, id) + Delta(t, id)
  {
  }

  /** Reconciliation: after any run of requests, each product's quantity is
      its initial quantity plus the net movement that the appended part of
      the ledger records for it. */
  lemma {:induction false} Reconciliation(s: Store, reqs: seq<Request>)
    ensures forall id :: id in s.products ==>
      id in Run(s, reqs).products &&
      Run(s, reqs).products[id].quantity ==
        s.products[id].quantity + Net(Run(s, reqs).ledger[|s.ledger|..], id)
  {
    if |reqs| == 0 {
      forall id | id in s.products
        ensures Net(s.ledger[|s.ledger|..], id) == 0
      {
        assert s.ledger[|s.ledger|..] == [];
      }
    } else {
      var init := reqs[..|reqs| - 1];
      var mid := Run(s, init);
      Reconciliation(s, init);
      var r := Handle(mid, reqs[|reqs| - 1]);
      assert Run(s, reqs) == r.0;
      forall id | id in s.products
        ensures r.0.products[id].quantity == s.products[id].quantity + Net(r.0.ledger[|s.ledger|..], id)
      {
        if r.1.Created? {
          assert r.0.ledger[|s.ledger|..] == mid.ledger[|s.ledger|..] + [r.1.transaction];
          NetAppend(mid.ledger[|s.ledger|..], r.1.transaction, id);
        } else {
          assert r.0 == mid;
        }
      }
    }
  }

  /** With non-negative request quantities, no run drives a non-negative
      stock below zero. */
  lemma {:induction false} RunKeepsStockNonNegative(s: Store, reqs: seq<Request>)
    requires forall id :: id in s.products ==> s.products[id].quantity >= 0
    requires forall i :: 0 <= i < |reqs| && !reqs[i].ListTransactions? ==> reqs[i].quantity >= 0
    ensures forall id :: id in Run(s, reqs).products ==> Run(s, reqs).products[id].quantity >= 0
  {
    if |reqs| > 0 {
      var init := reqs[..|reqs| - 1];
      RunKeepsStockNonNegative(s, init);
      var mid := Run(s, init);
      var req := reqs[|reqs| - 1];
      var r := Handle(mid, req);
      assert Run(s, reqs) == r.0;
      if r.1.Created? {
        assert req.StockInRequest? || req.StockOutRequest?;
        assert req.quantity >= 0;
        if req.StockOutRequest? {
          var id := req.productId;
          assert r.1.transaction.product == id;
          assert mid.products[id].quantity >= req.quantity;
        }
      }
    }
  }

  /** A successful OUT of a non-negative amount never leaves negative
      stock, whatever the stock was before. */
  lemma StockOutNeverOverdraws(s: Store, productId: ProductId, quantity: int, user: UserId, elapsed: nat)
    requires quantity >= 0
    ensures var r := StockOut(s, productId, quantity, user, elapsed);
      r.Success? ==> r.value.product.quantity >= 0
  {
  }

  /** The missing validation of IN quantities: a negative IN larger than
      the stock is applied and leaves the product below zero. */
  lemma NegativeStockInUnderflows(s: Store, productId: ProductId, quantity: int, user: UserId, elapsed: nat)
    requires productId in s.products
    requires quantity < -s.products[productId].quantity
    ensures var r := StockIn(s, productId, quantity, None, user, elapsed);
      r.Success? && r.value.product.quantity < 0
  {
  }

  /** The missing validation of OUT quantities: a negative OUT passes the
      sufficiency check on any non-negative stock and increases it. */
  lemma NegativeStockOutIncreases(s: Store, productId: ProductId, quantity: int, user: UserId, elapsed: nat)
    requires productId in s.products && s.products[productId].quantity >= 0
    requires quantity < 0
    ensures var r := StockOut(s, productId, quantity, user, elapsed);
      r.Success? && r.value.product.quantity > s.products[productId].quantity
  {
  }

  /** Ledger facts every reachable store keeps: entries are in creation
      order and not newer than the clock, each names a known product and
      its acting user, and OUT entries carry no supplier. */
  ghost predicate LedgerWellFormed(s: Store)
  {
    && (forall i, j :: 0 <= i < j < |s.ledger| ==> s.ledger[i].createdAt <= s.ledger[j].createdAt)
    && (forall i :: 0 <= i < |s.ledger| ==> s.ledger[i].createdAt <= s.clock)
    && (forall i :: 0 <= i < |s.ledger| ==> s.ledger[i].product in s.products)
    && (forall i :: 0 <= i < |s.ledger| ==> s.ledger[i].performedBy.Some?)
    && (forall i :: 0 <= i < |s.ledger| && s.ledger[i].txType == Out ==> s.ledger[i].supplier.None?)
  }

  lemma HandleKeepsLedgerWellFormed(s: Store, req: Request)
    requires LedgerWellFormed(s)
    ensures LedgerWellFormed(Handle(s, req).0)
  {
  }

  lemma {:induction false} RunKeepsLedgerWellFormed(s: Store, reqs: seq<Request>)
    requires LedgerWellFormed(s)
    ensures LedgerWellFormed(Run(s, reqs))
  {
    if |reqs| > 0 {
      RunKeepsLedgerWellFormed(s, reqs[..|reqs| - 1]);
      HandleKeepsLedgerWellFormed(Run(s, reqs[..|reqs| - 1]), reqs[|reqs| - 1]);
    }
  }
}
