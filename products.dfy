/**
 * The product table and the six request handlers of the products router,
 * over an in-memory store: the rows in insertion order and the next value
 * of the auto-increment key.
 */
module Products {
  import opened Wrappers
  import opened Schemas

  /** A row of the product table. */
  datatype Product = Product(id: int, fields: Fields)

  /**
   * What a handler answers. `Invalid` is a request body rejected before the
   * handler runs (nothing is stored); `BadResponse` is a stored row that
   * cannot be serialised as ProductResponse.
   */
  datatype Outcome<+T> =
    | Ok(value: T)
    | NotFound
    | Invalid(errors: seq<FieldError>)
    | BadResponse(errors: seq<FieldError>)

  /** The first key the auto-increment column hands out. */
  const FirstId: int := 1
  /** Defaults of the `skip` and `limit` query parameters. */
  const DefaultSkip: nat := 0
  const DefaultLimit: nat := 100

  // ---------------------------------------------------------------------
  // Table invariant

  /** Rows appear in insertion order, so their ids strictly increase. */
  predicate IdsIncreasing(rows: seq<Product>) {
    forall i, j :: 0 <= i < j < |rows| ==> rows[i].id < rows[j].id
  }

  /** Every id was issued (it lies in [FirstId, nextId)) and no two rows share one. */
  predicate TableInvariant(rows: seq<Product>, nextId: int) {
    && IdsIncreasing(rows)
    && FirstId <= nextId
    && forall i :: 0 <= i < |rows| ==> FirstId <= rows[i].id < nextId
  }

  /** Every row satisfies the create-time constraints. */
  predicate AllMeetCreateSchema(rows: seq<Product>) {
    forall i :: 0 <= i < |rows| ==> MeetsCreateSchema(rows[i].fields)
  }

  lemma {:induction false} IdsAreUnique(rows: seq<Product>, i: int, j: int)
    requires IdsIncreasing(rows)
    requires 0 <= i < |rows| && 0 <= j < |rows| && rows[i].id == rows[j].id
    ensures i == j
  {
  }

  // ---------------------------------------------------------------------
  // Lookup by id: `filter(Product.id == product_id).first()`

  /** The position of the first row with this id. */
  function FindIndex(rows: seq<Product>, id: int): (k: Option<nat>)
    ensures k.Some? ==> k.value < |rows| && rows[k.value].id == id
    ensures k.Some? ==> forall j :: 0 <= j < k.value ==> rows[j].id != id
    ensures k.None? ==> forall j :: 0 <= j < |rows| ==> rows[j].id != id
  {
    if rows == [] then None
    else if rows[0].id == id then Some(0)
    else
      match FindIndex(rows[1..], id)
      case None => None
      case Some(k) => Some(k + 1)
  }

  /** Two tables with the same ids position every id alike. */
  lemma {:induction false} FindIndexOnlyReadsIds(a: seq<Product>, b: seq<Product>, id: int)
    requires |a| == |b|
    requires forall i :: 0 <= i < |a| ==> a[i].id == b[i].id
    ensures FindIndex(a, id) == FindIndex(b, id)
  {
  }

  /** A row serialised through response_model=ProductResponse. */
  function Serialize(row: Product): (r: Outcome<ProductResponse>)
    ensures r.Ok? || r.BadResponse?
    ensures r.Ok? <==> MeetsCreateSchema(row.fields)
    ensures r.Ok? ==> r.value.id == row.id && CreateFields(CreatePart(r.value)) == row.fields
  {
    match ValidateResponse(row.id, row.fields)
    case Success(resp) => Ok(resp)
    case Failure(e) => BadResponse(e)
  }

  /** read_product: the row with this id, serialised, or NotFound. */
  function Lookup(rows: seq<Product>, id: int): (r: Outcome<ProductResponse>)
    ensures !r.Invalid?
    ensures r.NotFound? <==> forall j :: 0 <= j < |rows| ==> rows[j].id != id
    ensures r.Ok? ==> r.value.id == id
  {
    match FindIndex(rows, id)
    case None => NotFound
    case Some(k) => Serialize(rows[k])
  }

  /** With unique ids, read_product answers with the one row carrying the id. */
  lemma {:induction false} LookupFindsTheRow(rows: seq<Product>, id: int, j: int)
    requires IdsIncreasing(rows)
    requires 0 <= j < |rows| && rows[j].id == id
    ensures Lookup(rows, id) == Serialize(rows[j])
    ensures MeetsCreateSchema(rows[j].fields) ==>
              Lookup(rows, id).Ok? && CreateFields(CreatePart(Lookup(rows, id).value)) == rows[j].fields
  {
  }

  // ---------------------------------------------------------------------
  // Listing: optional category filter, then `offset(skip).limit(limit)`

  /** Python truthiness of `category: str = None`: neither None nor "". */
  predicate FilterActive(category: Option<string>) {
    category.Some? && category.value != ""
  }

  /** `filter(Product.category == c)`, keeping the table order. */
  function FilterCategory(rows: seq<Product>, c: string): (r: seq<Product>)
    ensures |r| <= |rows|
    ensures forall x :: x in r <==> x in rows && x.fields.category == Some(c)
  {
    if rows == [] then []
    else (if rows[0].fields.category == Some(c) then [rows[0]] else []) + FilterCategory(rows[1..], c)
  }

  /** Filtering keeps the rows in table order. */
  lemma {:induction false} FilterKeepsOrder(rows: seq<Product>, c: string)
    requires IdsIncreasing(rows)
    ensures IdsIncreasing(FilterCategory(rows, c))
  {
    if rows != [] {
      FilterKeepsOrder(rows[1..], c);
      var tail := FilterCategory(rows[1..], c);
      forall x | x in tail ensures rows[0].id < x.id {
        var i :| 0 <= i < |rows[1..]| && rows[1..][i] == x;
        assert rows[i + 1] == x;
      }
    }
  }

  /** The offset/limit window: at most `limit` consecutive items, from position `skip`. */
  function Window<T>(s: seq<T>, skip: nat, limit: nat): (r: seq<T>)
    ensures |r| <= limit
    ensures |r| == if skip >= |s| then 0 else if |s| - skip < limit then |s| - skip else limit
    ensures forall i :: 0 <= i < |r| ==> r[i] == s[skip + i]
  {
    if skip >= |s| then []
    else if skip + limit <= |s| then s[skip..skip + limit]
    else s[skip..]
  }

  /** The rows that read_products selects. */
  function Query(rows: seq<Product>, skip: nat, limit: nat, category: Option<string>): (r: seq<Product>)
    ensures |r| <= limit
    ensures forall x :: x in r ==> x in rows
    ensures FilterActive(category) ==> forall x :: x in r ==> x.fields.category == category
    ensures !FilterActive(category) ==> |r| == (if skip >= |rows| then 0 else if |rows| - skip < limit then |rows| - skip else limit)
    ensures !FilterActive(category) ==> forall i :: 0 <= i < |r| ==> r[i] == rows[skip + i]
  {
    var selected := if FilterActive(category) then FilterCategory(rows, category.value) else rows;
    var r := Window(selected, skip, limit);
    assert forall x :: x in r ==> x in selected;
    r
  }

  /** With a category, the query is the window over exactly the matching rows, in table order. */
  lemma {:induction false} QueryWithCategory(rows: seq<Product>, skip: nat, limit: nat, c: string)
    requires IdsIncreasing(rows)
    requires c != ""
    ensures Query(rows, skip, limit, Some(c)) == Window(FilterCategory(rows, c), skip, limit)
    ensures IdsIncreasing(Query(rows, skip, limit, Some(c)))
  {
    FilterKeepsOrder(rows, c);
  }

  /** `response_model=List[ProductResponse]`: every row must serialise. */
  function SerializeAll(rows: seq<Product>): (r: Result<seq<ProductResponse>, seq<FieldError>>)
    ensures r.Success? <==> AllMeetCreateSchema(rows)
    ensures r.Success? ==> |r.value| == |rows|
    ensures r.Success? ==> forall i :: 0 <= i < |rows| ==>
              r.value[i].id == rows[i].id && CreateFields(CreatePart(r.value[i])) == rows[i].fields
    ensures r.Failure? ==> r.error != []
  {
    if rows == [] then Success([])
    else
      var head := ValidateResponse(rows[0].id, rows[0].fields);
      var tail := SerializeAll(rows[1..]);
      assert AllMeetCreateSchema(rows) <==> MeetsCreateSchema(rows[0].fields) && AllMeetCreateSchema(rows[1..]) by {
        if MeetsCreateSchema(rows[0].fields) && AllMeetCreateSchema(rows[1..]) {
          forall i | 0 <= i < |rows| ensures MeetsCreateSchema(rows[i].fields) {
            if i > 0 { assert rows[i] == rows[1..][i - 1]; }
          }
        }
      }
      match (head, tail)
      case (Success(p), Success(ps)) => Success([p] + ps)
      case (Success(_), Failure(e)) => Failure(e)
      case (Failure(e), Success(_)) => Failure(e)
      case (Failure(e1), Failure(e2)) => Failure(e1 + e2)
  }

  /** read_products over a table. */
  function ListProducts(rows: seq<Product>, skip: nat, limit: nat, category: Option<string>): (r: Outcome<seq<ProductResponse>>)
    ensures r.Ok? || r.BadResponse?
    ensures r.Ok? <==> AllMeetCreateSchema(Query(rows, skip, limit, category))
    ensures r.Ok? ==> |r.value| <= limit
    ensures r.Ok? ==> var q := Query(rows, skip, limit, category);
              |r.value| == |q| &&
              forall i :: 0 <= i < |q| ==> r.value[i].id == q[i].id && CreateFields(CreatePart(r.value[i])) == q[i].fields
    ensures r.Ok? && FilterActive(category) ==> forall i :: 0 <= i < |r.value| ==> r.value[i].category == category.value
  {
    var q := Query(rows, skip, limit, category);
    match SerializeAll(q)
    case Success(resps) =>
      assert forall i :: 0 <= i < |resps| ==> CreateFields(CreatePart(resps[i])).category == q[i].fields.category;
      Ok(resps)
    case Failure(e) => BadResponse(e)
  }

  /** A table whose rows all keep the create-time constraints can always be listed and read. */
  lemma {:induction false} ValidRowsAlwaysSerialize(rows: seq<Product>, skip: nat, limit: nat, category: Option<string>, id: int)
    requires AllMeetCreateSchema(rows)
    ensures ListProducts(rows, skip, limit, category).Ok?
    ensures Lookup(rows, id).Ok? || Lookup(rows, id).NotFound?
  {
  }

  // ---------------------------------------------------------------------
  // Partial update: `for key, value in product.dict(exclude_unset=True).items(): setattr(...)`

  /** One `setattr(db_product, key, value)`. */
  datatype Assignment =
    | SetName(name: Option<string>)
    | SetDescription(description: Option<string>)
    | SetPrice(price: Option<real>)
    | SetCategory(category: Option<string>)
    | SetStockQuantity(stockQuantity: Option<int>)

  /** `product.dict(exclude_unset=True)`: the set fields, in declaration order. */
  function UpdateData(u: ProductUpdate): seq<Assignment> {
    (if u.name.Set? then [SetName(u.name.value)] else [])
    + (if u.description.Set? then [SetDescription(u.description.value)] else [])
    + (if u.price.Set? then [SetPrice(u.price.value)] else [])
    + (if u.category.Set? then [SetCategory(u.category.value)] else [])
    + (if u.stockQuantity.Set? then [SetStockQuantity(u.stockQuantity.value)] else [])
  }

  function SetAttr(f: Fields, a: Assignment): Fields {
    match a
    case SetName(v) => f.(name := v)
    case SetDescription(v) => f.(description := v)
    case SetPrice(v) => f.(price := v)
    case SetCategory(v) => f.(category := v)
    case SetStockQuantity(v) => f.(stockQuantity := v)
  }

  /** The loop body applied to each assignment in turn. */
  function ApplyAll(f: Fields, assigns: seq<Assignment>): Fields
    decreases |assigns|
  {
    if assigns == [] then f else ApplyAll(SetAttr(f, assigns[0]), assigns[1..])
  }

  /** A field after an update: the sent value if set, the stored one otherwise. */
  function Pick<T>(p: Patch<T>, current: T): T {
    match p
    case Unset => current
    case Set(v) => v
  }

  /** Reference definition of a partial update, field by field. */
  function Merge(f: Fields, u: ProductUpdate): Fields {
    Fields(Pick(u.name, f.name), Pick(u.description, f.description), Pick(u.price, f.price),
           Pick(u.category, f.category), Pick(u.stockQuantity, f.stockQuantity))
  }

  lemma {:induction false} ApplyAllAppend(f: Fields, a: seq<Assignment>, b: seq<Assignment>)
    ensures ApplyAll(f, a + b) == ApplyAll(ApplyAll(f, a), b)
    decreases |a|
  {
    if a == [] {
      assert a + b == b;
    } else {
      assert (a + b)[0] == a[0];
      assert (a + b)[1..] == a[1..] + b;
      ApplyAllAppend(SetAttr(f, a[0]), a[1..], b);
    }
  }

  /** The setattr loop over the set fields computes exactly the field-by-field merge. */
  lemma {:induction false} UpdateDataMerges(f: Fields, u: ProductUpdate)
    ensures ApplyAll(f, UpdateData(u)) == Merge(f, u)
  {
    var n := if u.name.Set? then [SetName(u.name.value)] else [];
    var d := if u.description.Set? then [SetDescription(u.description.value)] else [];
    var p := if u.price.Set? then [SetPrice(u.price.value)] else [];
    var c := if u.category.Set? then [SetCategory(u.category.value)] else [];
    var s := if u.stockQuantity.Set? then [SetStockQuantity(u.stockQuantity.value)] else [];
    ApplyAllAppend(f, n, d);
    ApplyAllAppend(f, n + d, p);
    ApplyAllAppend(f, n + d + p, c);
    ApplyAllAppend(f, n + d + p + c, s);
  }

  /** Sending the same patch twice stores what sending it once does; the empty patch changes nothing. */
  lemma {:induction false} PatchIdempotent(f: Fields, u: ProductUpdate)
    ensures ApplyAll(ApplyAll(f, UpdateData(u)), UpdateData(u)) == ApplyAll(f, UpdateData(u))
    ensures ApplyAll(f, UpdateData(EmptyUpdate)) == f
  {
    UpdateDataMerges(f, u);
    UpdateDataMerges(Merge(f, u), u);
  }

  /** The table after update_product. */
  function UpdateRows(rows: seq<Product>, id: int, u: ProductUpdate): seq<Product> {
    match FindIndex(rows, id)
    case None => rows
    case Some(k) => rows[k := Product(rows[k].id, Merge(rows[k].fields, u))]
  }

  /**
   * Update overwrites exactly the set fields of the row with this id; its
   * id, its unset fields and every other row keep their values.
   */
  lemma {:induction false} UpdateEffect(rows: seq<Product>, id: int, u: ProductUpdate)
    requires IdsIncreasing(rows)
    ensures |UpdateRows(rows, id, u)| == |rows|
    ensures forall i :: 0 <= i < |rows| ==> UpdateRows(rows, id, u)[i].id == rows[i].id
    ensures forall i :: 0 <= i < |rows| && rows[i].id != id ==> UpdateRows(rows, id, u)[i] == rows[i]
    ensures forall i :: 0 <= i < |rows| && rows[i].id == id ==>
              UpdateRows(rows, id, u)[i].fields == Merge(rows[i].fields, u)
    ensures (forall i :: 0 <= i < |rows| ==> rows[i].id != id) ==> UpdateRows(rows, id, u) == rows
  {
  }

  lemma {:induction false} UpdatePreservesInvariant(rows: seq<Product>, nextId: int, id: int, u: ProductUpdate)
    requires TableInvariant(rows, nextId)
    ensures TableInvariant(UpdateRows(rows, id, u), nextId)
  {
  }

  /** update_product with the same patch twice leaves the table as once; the empty patch is the identity. */
  lemma {:induction false} UpdateIdempotent(rows: seq<Product>, id: int, u: ProductUpdate)
    requires IdsIncreasing(rows)
    ensures UpdateRows(UpdateRows(rows, id, u), id, u) == UpdateRows(rows, id, u)
    ensures UpdateRows(rows, id, EmptyUpdate) == rows
  {
  }

  /** A patch value that ProductCreate would refuse for that field. */
  predicate PatchBreaksCreateSchema(u: ProductUpdate) {
    || (u.name.Set? && (u.name.value.None? || !(NameMinLength <= |u.name.value.value| <= NameMaxLength)))
    || (u.price.Set? && (u.price.value.None? || u.price.value.value <= PriceExclusiveMin))
    || (u.category.Set? && (u.category.value.None? || !(CategoryMinLength <= |u.category.value.value| <= CategoryMaxLength)))
    || (u.stockQuantity.Set? && (u.stockQuantity.value.None? || u.stockQuantity.value.value < StockMin))
  }

  /**
   * ProductUpdate carries no constraints, so an update may store a row that
   * breaks the create-time invariant (price <= 0, negative stock, ...). The
   * table then no longer satisfies AllMeetCreateSchema, and reading that
   * row back fails response validation.
   */
  lemma {:induction false} UpdateCanBreakCreateSchema(rows: seq<Product>, id: int, u: ProductUpdate, j: int)
    requires IdsIncreasing(rows)
    requires 0 <= j < |rows| && rows[j].id == id
    requires PatchBreaksCreateSchema(u)
    ensures !AllMeetCreateSchema(UpdateRows(rows, id, u))
    ensures Lookup(UpdateRows(rows, id, u), id).BadResponse?
  {
    UpdateEffect(rows, id, u);
    var after := UpdateRows(rows, id, u);
    assert !MeetsCreateSchema(after[j].fields);
    LookupFindsTheRow(after, id, j);
  }

  /** A concrete valid table that a zero-price update takes out of the create-time invariant. */
  lemma {:induction false} UpdateIsNotSchemaPreserving()
    ensures exists rows: seq<Product>, u: ProductUpdate ::
              TableInvariant(rows, 2) && AllMeetCreateSchema(rows) && !AllMeetCreateSchema(UpdateRows(rows, 1, u))
  {
    var rows := [Product(1, Fields(Some("Widget"), None, Some(19.99), Some("Tools"), Some(100)))];
    var u := EmptyUpdate.(price := Set(Some(0.0)));
    assert MeetsCreateSchema(rows[0].fields);
    UpdateCanBreakCreateSchema(rows, 1, u, 0);
  }

  // ---------------------------------------------------------------------
  // Delete

  /** The table after `db.delete` of the row with this id. */
  function RemoveId(rows: seq<Product>, id: int): (r: seq<Product>)
    ensures |r| <= |rows|
  {
    if rows == [] then []
    else (if rows[0].id == id then [] else [rows[0]]) + RemoveId(rows[1..], id)
  }

  /** Delete keeps exactly the rows with another id. */
  lemma {:induction false} RemoveIdMembers(rows: seq<Product>, id: int)
    ensures forall x :: x in RemoveId(rows, id) <==> x in rows && x.id != id
  {
    if rows != [] {
      RemoveIdMembers(rows[1..], id);
      assert rows == [rows[0]] + rows[1..];
    }
  }

  lemma {:induction false} RemoveAbsent(rows: seq<Product>, id: int)
    requires forall j :: 0 <= j < |rows| ==> rows[j].id != id
    ensures RemoveId(rows, id) == rows
  {
    if rows != [] {
      RemoveAbsent(rows[1..], id);
      assert [rows[0]] + rows[1..] == rows;
    }
  }

  /** With unique ids, delete takes out exactly the one row with the id and keeps the others in order. */
  lemma {:induction false} RemoveExactlyOne(rows: seq<Product>, id: int, k: int)
    requires IdsIncreasing(rows)
    requires 0 <= k < |rows| && rows[k].id == id
    ensures RemoveId(rows, id) == rows[..k] + rows[k + 1..]
    ensures |RemoveId(rows, id)| == |rows| - 1
  {
    var tail := rows[1..];
    assert RemoveId(rows, id) == (if rows[0].id == id then [] else [rows[0]]) + RemoveId(tail, id);
    if k == 0 {
      assert forall j :: 0 <= j < |tail| ==> tail[j].id != id by {
        forall j | 0 <= j < |tail| ensures tail[j].id != id {
          assert tail[j] == rows[j + 1];
        }
      }
      RemoveAbsent(tail, id);
      assert rows[..k] + rows[k + 1..] == tail;
    } else {
      assert rows[0].id < rows[k].id;
      assert IdsIncreasing(tail);
      assert tail[k - 1] == rows[k];
      RemoveExactlyOne(tail, id, k - 1);
      assert tail[..k - 1] == rows[1..k];
      assert tail[k..] == rows[k + 1..];
      assert [rows[0]] + rows[1..k] == rows[..k];
    }
  }

  /** Cutting one row out of a table keeps its invariants. */
  lemma {:induction false} CutKeepsInvariants(rows: seq<Product>, nextId: int, k: int)
    requires TableInvariant(rows, nextId)
    requires 0 <= k < |rows|
    ensures TableInvariant(rows[..k] + rows[k + 1..], nextId)
    ensures AllMeetCreateSchema(rows) ==> AllMeetCreateSchema(rows[..k] + rows[k + 1..])
    ensures forall x :: x in rows[..k] + rows[k + 1..] ==> x.id != rows[k].id
  {
  }

  /** After delete, the id is gone, every other row remains, and the invariants hold. */
  lemma {:induction false} DeleteEffect(rows: seq<Product>, nextId: int, id: int)
    requires TableInvariant(rows, nextId)
    ensures TableInvariant(RemoveId(rows, id), nextId)
    ensures AllMeetCreateSchema(rows) ==> AllMeetCreateSchema(RemoveId(rows, id))
    ensures Lookup(RemoveId(rows, id), id).NotFound?
    ensures forall x :: x in rows && x.id != id ==> x in RemoveId(rows, id)
  {
    RemoveIdMembers(rows, id);
    match FindIndex(rows, id)
    case None =>
      RemoveAbsent(rows, id);
    case Some(k) =>
      RemoveExactlyOne(rows, id, k);
      CutKeepsInvariants(rows, nextId, k);
  }

  // ---------------------------------------------------------------------
  // Insert

  /** The rows that inserting these payloads adds, with consecutive ids from `start`. */
  function NewRows(start: int, ps: seq<ProductCreate>): (r: seq<Product>)
    ensures |r| == |ps|
    ensures forall i :: 0 <= i < |ps| ==> r[i].id == start + i && r[i].fields == CreateFields(ps[i])
    decreases |ps|
  {
    if ps == [] then [] else [Product(start, CreateFields(ps[0]))] + NewRows(start + 1, ps[1..])
  }

  lemma {:induction false} NewRowsSnoc(start: int, ps: seq<ProductCreate>, p: ProductCreate)
    ensures NewRows(start, ps + [p]) == NewRows(start, ps) + [Product(start + |ps|, CreateFields(p))]
  {
  }

  lemma {:induction false} NewRowsMeetCreateSchema(start: int, ps: seq<ProductCreate>)
    requires forall i :: 0 <= i < |ps| ==> ValidCreate(ps[i])
    ensures AllMeetCreateSchema(NewRows(start, ps))
  {
  }

  /** The bulk answer lists the inputs in order, with consecutive ids from `start`. */
  lemma {:induction false} BulkResponses(start: int, inputs: seq<Fields>, ps: seq<ProductCreate>, resps: seq<ProductResponse>)
    requires ValidateAll(inputs) == Success(ps)
    requires SerializeAll(NewRows(start, ps)) == Success(resps)
    ensures |resps| == |inputs|
    ensures forall i :: 0 <= i < |inputs| ==> resps[i].id == start + i && CreateFields(CreatePart(resps[i])) == inputs[i]
  {
  }

  /**
   * Inserting payloads at the counter appends rows whose ids are pairwise
   * distinct and fresh, and keeps the invariants.
   */
  lemma {:induction false} InsertEffect(rows: seq<Product>, nextId: int, ps: seq<ProductCreate>)
    requires TableInvariant(rows, nextId)
    ensures TableInvariant(rows + NewRows(nextId, ps), nextId + |ps|)
    ensures forall i, j :: 0 <= i < |rows| && 0 <= j < |ps| ==> rows[i].id != NewRows(nextId, ps)[j].id
    ensures forall i, j :: 0 <= i < j < |ps| ==> NewRows(nextId, ps)[i].id != NewRows(nextId, ps)[j].id
    ensures AllMeetCreateSchema(rows) && (forall i :: 0 <= i < |ps| ==> ValidCreate(ps[i])) ==>
              AllMeetCreateSchema(rows + NewRows(nextId, ps))
  {
  }

  // ---------------------------------------------------------------------
  // The store

  /** The product table with its auto-increment counter. */
  class ProductStore {
    var rows: seq<Product>
    var nextId: int

    ghost predicate Valid()
      reads this
    {
      TableInvariant(rows, nextId)
    }

    /**
     * A fresh, empty table with the counter at the first id: the state
     * `create_tables()` leaves on the first start of the service.
     */
    constructor ()
      ensures Valid() && rows == [] && nextId == FirstId
    {
      rows := [];
      nextId := FirstId;
    }

    /** read_product. */
    function ReadProduct(id: int): (r: Outcome<ProductResponse>)
      reads this
      ensures !r.Invalid?
      ensures r.NotFound? <==> forall j :: 0 <= j < |rows| ==> rows[j].id != id
      ensures r.Ok? ==> r.value.id == id
    {
      Lookup(rows, id)
    }

    /** read_products. */
    function ReadProducts(skip: nat, limit: nat, category: Option<string>): (r: Outcome<seq<ProductResponse>>)
      reads this
      ensures r.Ok? || r.BadResponse?
      ensures r.Ok? <==> AllMeetCreateSchema(Query(rows, skip, limit, category))
      ensures r.Ok? ==> |r.value| <= limit
      ensures r.Ok? ==> var q := Query(rows, skip, limit, category);
                |r.value| == |q| &&
                forall i :: 0 <= i < |q| ==> r.value[i].id == q[i].id && CreateFields(CreatePart(r.value[i])) == q[i].fields
      ensures r.Ok? && FilterActive(category) ==> forall i :: 0 <= i < |r.value| ==> r.value[i].category == category.value
    {
      ListProducts(rows, skip, limit, category)
    }

    /** create_product: validate the body, insert one row with the next id, answer with it. */
    method CreateProduct(input: Fields) returns (r: Outcome<ProductResponse>)
      requires Valid()
      modifies this
      ensures Valid()
      ensures r.Ok? || r.Invalid?
      ensures r.Ok? <==> MeetsCreateSchema(input)
      ensures r.Invalid? ==> rows == old(rows) && nextId == old(nextId) && r.errors == ValidateCreate(input).error
      ensures r.Ok? ==> rows == old(rows) + [Product(old(nextId), input)] && nextId == old(nextId) + 1
      ensures r.Ok? ==> r.value.id == old(nextId) && CreateFields(CreatePart(r.value)) == input
      ensures r.Ok? ==> forall i :: 0 <= i < |old(rows)| ==> old(rows)[i].id != r.value.id
    {
      match ValidateCreate(input)
      case Failure(errors) =>
        r := Invalid(errors);
      case Success(p) =>
        InsertEffect(rows, nextId, [p]);
        var row := Product(nextId, CreateFields(p));
        rows := rows + [row];
        nextId := nextId + 1;
        r := Serialize(row);
    }

    /** update_product: NotFound, or the set fields written over the row and the row read back. */
    method UpdateProduct(id: int, u: ProductUpdate) returns (r: Outcome<ProductResponse>)
      requires Valid()
      modifies this
      ensures Valid() && nextId == old(nextId)
      ensures rows == UpdateRows(old(rows), id, u)
      ensures r.NotFound? <==> forall j :: 0 <= j < |old(rows)| ==> old(rows)[j].id != id
      ensures r.NotFound? ==> rows == old(rows)
      ensures !r.NotFound? ==> r == ReadProduct(id)
    {
      var k := FindIndex(rows, id);
      if k.None? {
        r := NotFound;
        return;
      }
      var i := k.value;
      var assigns := UpdateData(u);
      var f := rows[i].fields;
      var n := 0;
      while n < |assigns|
        invariant 0 <= n <= |assigns|
        invariant ApplyAll(f, assigns[n..]) == ApplyAll(rows[i].fields, assigns)
      {
        assert assigns[n..][1..] == assigns[n + 1..];
        f := SetAttr(f, assigns[n]);
        n := n + 1;
      }
      UpdateDataMerges(rows[i].fields, u);
      UpdatePreservesInvariant(rows, nextId, id, u);
      ghost var before := rows;
      rows := rows[i := Product(rows[i].id, f)];
      FindIndexOnlyReadsIds(before, rows, id);
      r := Serialize(rows[i]);
    }

    /** delete_product: NotFound, or the row removed. */
    method DeleteProduct(id: int) returns (r: Outcome<()>)
      requires Valid()
      modifies this
      ensures Valid() && nextId == old(nextId)
      ensures r == Ok(()) || r == NotFound
      ensures r.NotFound? <==> forall j :: 0 <= j < |old(rows)| ==> old(rows)[j].id != id
      ensures rows == RemoveId(old(rows), id)
      ensures ReadProduct(id).NotFound?
    {
      DeleteEffect(rows, nextId, id);
      var k := FindIndex(rows, id);
      if k.None? {
        RemoveAbsent(rows, id);
        r := NotFound;
        return;
      }
      RemoveExactlyOne(rows, id, k.value);
      rows := rows[..k.value] + rows[k.value + 1..];
      r := Ok(());
    }

    /**
     * The list comprehension of `Product(**product.dict())`, then `db.add_all(...)`
     * and `commit()`: the payloads become rows in list order, each taking the
     * next value of the counter.
     */
    method InsertAll(ps: seq<ProductCreate>)
      requires Valid()
      modifies this
      ensures Valid()
      ensures rows == old(rows) + NewRows(old(nextId), ps)
      ensures nextId == old(nextId) + |ps|
    {
      var start, before := nextId, rows;
      InsertEffect(before, start, ps);
      var added: seq<Product> := [];
      var i := 0;
      while i < |ps|
        invariant 0 <= i <= |ps|
        invariant added == NewRows(start, ps[..i])
      {
        NewRowsSnoc(start, ps[..i], ps[i]);
        assert ps[..i + 1] == ps[..i] + [ps[i]];
        added := added + [Product(start + i, CreateFields(ps[i]))];
        i := i + 1;
      }
      assert ps[..|ps|] == ps;
      rows := before + added;
      nextId := start + |ps|;
    }

    /**
     * create_multiple_products: the whole list is validated first; then the
     * rows are inserted in input order, each committed row getting the next id.
     */
    method CreateMultipleProducts(inputs: seq<Fields>) returns (r: Outcome<seq<ProductResponse>>)
      requires Valid()
      modifies this
      ensures Valid()
      ensures r.Ok? || r.Invalid?
      ensures r.Ok? <==> forall i :: 0 <= i < |inputs| ==> MeetsCreateSchema(inputs[i])
      ensures r.Invalid? ==> rows == old(rows) && nextId == old(nextId) && r.errors == ValidateAll(inputs).error
      ensures r.Ok? ==> rows == old(rows) + NewRows(old(nextId), ValidateAll(inputs).value)
      ensures r.Ok? ==> nextId == old(nextId) + |inputs|
      ensures r.Ok? ==> |r.value| == |inputs|
      ensures r.Ok? ==> forall i :: 0 <= i < |inputs| ==>
                r.value[i].id == old(nextId) + i && CreateFields(CreatePart(r.value[i])) == inputs[i]
      ensures r.Ok? ==> forall i, j :: 0 <= i < |old(rows)| && 0 <= j < |inputs| ==> old(rows)[i].id != r.value[j].id
    {
      match ValidateAll(inputs)
      case Failure(errors) =>
        r := Invalid(errors);
      case Success(ps) =>
        var start := nextId;
        var before := rows;
        InsertAll(ps);
        var added := rows[|before|..];
        assert added == NewRows(start, ps);
        NewRowsMeetCreateSchema(start, ps);
        match SerializeAll(added)
        case Success(resps) =>
          BulkResponses(start, inputs, ps, resps);
          r := Ok(resps);
        case Failure(e) =>
          assert false;
          r := BadResponse(e);
    }
  }
}
