/** The product document (backend/models/Product.js): its fields, which of
    them are required, and the defaults the schema fills in. */
module ProductSchema {
  import opened Base

  /** Default `quantity` of a product created without one. */
  const DefaultQuantity: int := 0
  /** Default `minStockLevel` of a product created without one. */
  const DefaultMinStockLevel: int := 5

  /** A stored product. `category` is a free-text label, not a reference.
      `minStockLevel` is `None` when the document holds `null`: the schema
      default applies only to an absent field, not to an explicit null.
      The document's automatic `createdAt` / `updatedAt` are not modelled. */
  datatype Product = Product(
    name: string,
    category: string,
    quantity: int,
    price: real,
    minStockLevel: Option<int>,
    createdBy: Option<UserId>)

  /** How a field arrives in a create request: left out, sent as `null`
      (an empty number input is cast to `null`), or given a value. */
  datatype Field<+T> = Absent | Null | Given(value: T)

  datatype ProductInput = ProductInput(
    name: Field<string>,
    category: Field<string>,
    quantity: Field<int>,
    price: Field<real>,
    minStockLevel: Field<int>,
    createdBy: Field<UserId>)

  /** The schema's validation failures: a required path is missing. */
  datatype ValidationError = NameRequired | CategoryRequired | QuantityRequired | PriceRequired

  /** A required string is present and non-empty. */
  predicate RequiredString(f: Field<string>)
  {
    f.Given? && |f.value| > 0
  }

  /** The required paths a create request fails; Mongoose reports all of
      them together in one validation error. */
  function MissingPaths(input: ProductInput): set<ValidationError>
  {
    (if RequiredString(input.name) then {} else {NameRequired}) +
    (if RequiredString(input.category) then {} else {CategoryRequired}) +
    (if input.quantity.Null? then {QuantityRequired} else {}) +
    (if input.price.Given? then {} else {PriceRequired})
  }

  /** Validates a create request and applies the defaults, as saving a new
      document through the schema does. */
  function Create(input: ProductInput): (r: Result<Product, set<ValidationError>>)
    ensures r.Success? <==>
      RequiredString(input.name) && RequiredString(input.category) &&
      !input.quantity.Null? && input.price.Given?
    ensures r.Failure? ==> r.error != {}
    ensures r.Failure? ==> (NameRequired in r.error <==> !RequiredString(input.name))
    ensures r.Failure? ==> (CategoryRequired in r.error <==> !RequiredString(input.category))
    ensures r.Failure? ==> (QuantityRequired in r.error <==> input.quantity.Null?)
    ensures r.Failure? ==> (PriceRequired in r.error <==> !input.price.Given?)
    ensures r.Success? ==>
      && r.value.name == input.name.value
      && r.value.category == input.category.value
      && r.value.price == input.price.value
    ensures r.Success? && input.quantity.Absent? ==> r.value.quantity == DefaultQuantity
    ensures r.Success? && input.quantity.Given? ==> r.value.quantity == input.quantity.value
    ensures r.Success? && input.minStockLevel.Absent? ==> r.value.minStockLevel == Some(DefaultMinStockLevel)
    ensures r.Success? && input.minStockLevel.Null? ==> r.value.minStockLevel == None
    ensures r.Success? && input.minStockLevel.Given? ==> r.value.minStockLevel == Some(input.minStockLevel.value)
    ensures r.Success? ==>
      r.value.createdBy == (if input.createdBy.Given? then Some(input.createdBy.value) else None)
  {
    var missing := MissingPaths(input);
    if missing != {} then Failure(missing)
    else
      var quantity := if input.quantity.Given? then input.quantity.value else DefaultQuantity;
      var minLevel := match input.minStockLevel
        case Absent => Some(DefaultMinStockLevel)
        case Null => None
        case Given(m) => Some(m);
      var creator := if input.createdBy.Given? then Some(input.createdBy.value) else None;
      Success(Product(input.name.value, input.category.value, quantity, input.price.value, minLevel, creator))
  }
}
