/**
 * The request and response shapes of the product service and their
 * validation rules (the pydantic models `ProductCreate`, `ProductResponse`
 * and `ProductUpdate`).
 */
module Schemas {
  import opened Wrappers

  // Field constraints of ProductCreate.
  const NameMinLength: nat := 2
  const NameMaxLength: nat := 100
  const CategoryMinLength: nat := 2
  const CategoryMaxLength: nat := 50
  /** `price` must be strictly greater than this. */
  const PriceExclusiveMin: real := 0.0
  /** `stock_quantity` must be at least this. */
  const StockMin: int := 0

  datatype FieldName = Name | Description | Price | Category | StockQuantity

  /** Why a field was rejected. */
  datatype ErrorKind =
    | Missing                       // a required field is absent or null
    | TooShort(minLength: nat)
    | TooLong(maxLength: nat)
    | NotGreaterThan(bound: real)
    | NotGreaterOrEqual(limit: int)

  datatype FieldError = FieldError(field: FieldName, kind: ErrorKind)

  /**
   * The five product columns other than `id`, each possibly null. A request
   * body before validation has this shape (an absent key and an explicit
   * null both read as None), and so does a stored row.
   */
  datatype Fields = Fields(
    name: Option<string>,
    description: Option<string>,
    price: Option<real>,
    category: Option<string>,
    stockQuantity: Option<int>)

  /** A validated creation payload. */
  datatype ProductCreate = ProductCreate(
    name: string,
    description: Option<string>,
    price: real,
    category: string,
    stockQuantity: int)

  /** The constraints ProductCreate puts on its fields; the description is free. */
  predicate ValidCreate(p: ProductCreate) {
    && NameMinLength <= |p.name| <= NameMaxLength
    && p.price > PriceExclusiveMin
    && CategoryMinLength <= |p.category| <= CategoryMaxLength
    && p.stockQuantity >= StockMin
  }

  /** `product.dict()`: the column values a validated payload stores. */
  function CreateFields(p: ProductCreate): Fields {
    Fields(Some(p.name), p.description, Some(p.price), Some(p.category), Some(p.stockQuantity))
  }

  /**
   * Reference definition of acceptance: every required field is present and
   * the values together form a valid ProductCreate.
   */
  predicate MeetsCreateSchema(f: Fields) {
    && f.name.Some? && f.price.Some? && f.category.Some? && f.stockQuantity.Some?
    && ValidCreate(ProductCreate(f.name.value, f.description, f.price.value, f.category.value, f.stockQuantity.value))
  }

  /** An error report about a string field is accurate. */
  predicate StringErrorJustified(v: Option<string>, minLength: nat, maxLength: nat, kind: ErrorKind) {
    match kind
    case Missing => v.None?
    case TooShort(n) => n == minLength && v.Some? && |v.value| < n
    case TooLong(n) => n == maxLength && v.Some? && |v.value| > n
    case _ => false
  }

  /** An error report is accurate: the field it names really breaks the rule it names. */
  predicate Justified(f: Fields, e: FieldError) {
    match e.field
    case Name => StringErrorJustified(f.name, NameMinLength, NameMaxLength, e.kind)
    case Category => StringErrorJustified(f.category, CategoryMinLength, CategoryMaxLength, e.kind)
    case Price =>
      (match e.kind
       case Missing => f.price.None?
       case NotGreaterThan(b) => b == PriceExclusiveMin && f.price.Some? && f.price.value <= b
       case _ => false)
    case StockQuantity =>
      (match e.kind
       case Missing => f.stockQuantity.None?
       case NotGreaterOrEqual(b) => b == StockMin && f.stockQuantity.Some? && f.stockQuantity.value < b
       case _ => false)
    case Description => false
  }

  function CheckLength(field: FieldName, v: Option<string>, minLength: nat, maxLength: nat): seq<FieldError> {
    match v
    case None => [FieldError(field, Missing)]
    case Some(s) =>
      if |s| < minLength then [FieldError(field, TooShort(minLength))]
      else if |s| > maxLength then [FieldError(field, TooLong(maxLength))]
      else []
  }

  function CheckPrice(v: Option<real>): seq<FieldError> {
    match v
    case None => [FieldError(Price, Missing)]
    case Some(x) => if x > PriceExclusiveMin then [] else [FieldError(Price, NotGreaterThan(PriceExclusiveMin))]
  }

  function CheckStock(v: Option<int>): seq<FieldError> {
    match v
    case None => [FieldError(StockQuantity, Missing)]
    case Some(n) => if n >= StockMin then [] else [FieldError(StockQuantity, NotGreaterOrEqual(StockMin))]
  }

  /**
   * Validation of a body against ProductCreate: every field is checked and
   * all errors are reported together, in declaration order.
   */
  function ValidateCreate(f: Fields): (r: Result<ProductCreate, seq<FieldError>>)
    ensures r.Success? <==> MeetsCreateSchema(f)
    ensures r.Success? ==> ValidCreate(r.value) && CreateFields(r.value) == f
    ensures r.Failure? ==> r.error != [] && forall e :: e in r.error ==> Justified(f, e)
  {
    var errors := CheckLength(Name, f.name, NameMinLength, NameMaxLength)
                  + CheckPrice(f.price)
                  + CheckLength(Category, f.category, CategoryMinLength, CategoryMaxLength)
                  + CheckStock(f.stockQuantity);
    if errors == [] then
      Success(ProductCreate(f.name.value, f.description, f.price.value, f.category.value, f.stockQuantity.value))
    else
      Failure(errors)
  }

  /** Validating the fields of a payload gives the payload back exactly when it is valid. */
  lemma {:induction false} ValidateCreateRoundTrip(p: ProductCreate)
    ensures ValidCreate(p) ==> ValidateCreate(CreateFields(p)) == Success(p)
    ensures !ValidCreate(p) ==> ValidateCreate(CreateFields(p)).Failure?
  {
  }

  /** The description never decides acceptance. */
  lemma {:induction false} DescriptionIsUnconstrained(f: Fields, d: Option<string>)
    ensures ValidateCreate(f).Success? <==> ValidateCreate(f.(description := d)).Success?
  {
  }

  /**
   * Validation of a `List[ProductCreate]` body: it succeeds only when every
   * element does, and then keeps the input order; otherwise the errors of
   * all failing elements are reported.
   */
  function ValidateAll(fs: seq<Fields>): (r: Result<seq<ProductCreate>, seq<FieldError>>)
    ensures r.Success? <==> forall i :: 0 <= i < |fs| ==> MeetsCreateSchema(fs[i])
    ensures r.Success? ==> |r.value| == |fs|
    ensures r.Success? ==> forall i :: 0 <= i < |fs| ==> ValidCreate(r.value[i]) && CreateFields(r.value[i]) == fs[i]
    ensures r.Failure? ==> r.error != []
    ensures r.Failure? ==> forall e :: e in r.error ==> exists i :: 0 <= i < |fs| && Justified(fs[i], e)
  {
    if fs == [] then Success([])
    else
      var head := ValidateCreate(fs[0]);
      var tail := ValidateAll(fs[1..]);
      match (head, tail)
      case (Success(p), Success(ps)) => Success([p] + ps)
      case (Success(_), Failure(e)) => Failure(e)
      case (Failure(e), Success(_)) => Failure(e)
      case (Failure(e1), Failure(e2)) => Failure(e1 + e2)
  }

  /** ProductResponse: the ProductCreate fields plus the generated `id`. */
  datatype ProductResponse = ProductResponse(
    id: int,
    name: string,
    description: Option<string>,
    price: real,
    category: string,
    stockQuantity: int)

  function WithId(id: int, p: ProductCreate): ProductResponse {
    ProductResponse(id, p.name, p.description, p.price, p.category, p.stockQuantity)
  }

  /** The inherited ProductCreate part of a response. */
  function CreatePart(r: ProductResponse): ProductCreate {
    ProductCreate(r.name, r.description, r.price, r.category, r.stockQuantity)
  }

  /** A response is exactly a payload plus an id: the two conversions are inverse. */
  lemma {:induction false} ResponseIsCreatePlusId(r: ProductResponse, id: int, p: ProductCreate)
    ensures WithId(r.id, CreatePart(r)) == r
    ensures WithId(id, p).id == id && CreatePart(WithId(id, p)) == p
  {
  }

  /**
   * Serialising a stored row through `response_model=ProductResponse`.
   * ProductResponse inherits every ProductCreate constraint, so a row that
   * breaks them cannot be turned into a response.
   */
  function ValidateResponse(id: int, f: Fields): (r: Result<ProductResponse, seq<FieldError>>)
    ensures r.Success? <==> MeetsCreateSchema(f)
    ensures r.Success? ==> r.value.id == id && CreateFields(CreatePart(r.value)) == f
    ensures r.Success? ==> ValidCreate(CreatePart(r.value))
    ensures r.Failure? ==> r.error != [] && forall e :: e in r.error ==> Justified(f, e)
  {
    match ValidateCreate(f)
    case Success(p) => Success(WithId(id, p))
    case Failure(e) => Failure(e)
  }

  /** One field of a partial update: not sent, or sent with a (possibly null) value. */
  datatype Patch<+T> = Unset | Set(value: T)

  /**
   * ProductUpdate: every field optional and carrying no range or length
   * constraint; a field sent as null is set and carries None.
   */
  datatype ProductUpdate = ProductUpdate(
    name: Patch<Option<string>>,
    description: Patch<Option<string>>,
    price: Patch<Option<real>>,
    category: Patch<Option<string>>,
    stockQuantity: Patch<Option<int>>)

  /** The update that sets no field. */
  const EmptyUpdate: ProductUpdate := ProductUpdate(Unset, Unset, Unset, Unset, Unset)
}
