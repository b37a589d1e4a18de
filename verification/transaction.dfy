/** The stock-transaction document (backend/models/StockTransaction.js): one
    immutable ledger entry recording a movement of stock in or out. */
module TransactionSchema {
  import opened Base

  /** The `type` enum: exactly the two strings "IN" and "OUT". */
  datatype TxType = In | Out

  /** The string stored in the document for a movement type. */
  function TypeName(t: TxType): string
  {
    match t
    case In => "IN"
    case Out => "OUT"
  }

  /** Reads the stored `type` string; anything outside the enum is rejected. */
  function ParseType(s: string): (r: Option<TxType>)
    ensures r.Some? <==> s == "IN" || s == "OUT"
    ensures r.Some? ==> TypeName(r.value) == s
  {
    if s == "IN" then Some(In)
    else if s == "OUT" then Some(Out)
    else None
  }

  /** The enum's string form reads back as the same type. */
  lemma TypeRoundTrip(t: TxType)
    ensures ParseType(TypeName(t)) == Some(t)
  {
  }

  /** A stored ledger entry. `product`, `type` and `quantity` are required;
      `supplier` and `performedBy` are optional references; `createdAt` is
      set by the schema's timestamps option. */
  datatype Transaction = Transaction(
    product: ProductId,
    txType: TxType,
    quantity: int,
    supplier: Option<SupplierId>,
    performedBy: Option<UserId>,
    createdAt: Timestamp)

  /** The quantity as it moves the product's stock: positive for IN,
      negative for OUT. */
  function Signed(t: Transaction): int
  {
    if t.txType == In then t.quantity else -t.quantity
  }

  /** A create request for a ledger entry, fields as they arrive. */
  datatype TransactionInput = TransactionInput(
    product: Option<ProductId>,
    txType: Option<string>,
    quantity: Option<int>,
    supplier: Option<SupplierId>,
    performedBy: Option<UserId>)

  datatype TxValidationError = ProductRequired | TypeRequired | TypeNotInEnum | TxQuantityRequired

  /** The `type` path is missing: absent, or the empty string, which the
      required check on a string path rejects before the enum check runs. */
  predicate TypeMissing(input: TransactionInput)
  {
    input.txType.None? || input.txType.value == ""
  }

  /** Every path the request fails, reported together; each path reports
      its first failing check. */
  function TxMissingPaths(input: TransactionInput): set<TxValidationError>
  {
    (if input.product.None? then {ProductRequired} else {}) +
    (if TypeMissing(input) then {TypeRequired}
     else if ParseType(input.txType.value).None? then {TypeNotInEnum} else {}) +
    (if input.quantity.None? then {TxQuantityRequired} else {})
  }

  /** Validates a create request and stamps it with the creation time. */
  function CreateTransaction(input: TransactionInput, now: Timestamp): (r: Result<Transaction, set<TxValidationError>>)
    ensures r.Success? <==>
      input.product.Some? && input.quantity.Some? &&
      input.txType.Some? && (input.txType.value == "IN" || input.txType.value == "OUT")
    ensures r.Failure? ==> r.error != {}
    ensures r.Failure? ==> (ProductRequired in r.error <==> input.product.None?)
    ensures r.Failure? ==> (TxQuantityRequired in r.error <==> input.quantity.None?)
    ensures r.Failure? ==> (TypeRequired in r.error <==> TypeMissing(input))
    ensures r.Failure? ==>
      (TypeNotInEnum in r.error <==>
        !TypeMissing(input) && input.txType.value != "IN" && input.txType.value != "OUT")
    ensures r.Success? ==>
      && r.value.product == input.product.value
      && TypeName(r.value.txType) == input.txType.value
      && r.value.quantity == input.quantity.value
      && r.value.supplier == input.supplier
      && r.value.performedBy == input.performedBy
      && r.value.createdAt == now
  {
    var missing := TxMissingPaths(input);
    if missing != {} then Failure(missing)
    else
      Success(Transaction(input.product.value, ParseType(input.txType.value).value,
                          input.quantity.value, input.supplier, input.performedBy, now))
  }
}
