# Product inventory service — a Dafny model

This project models the core of a small product-inventory CRUD service: the
request and response schemas of a product (`schemas.py`) and the six handlers
of the products router (`products.py`). The relational table becomes an
in-memory store. It holds the rows in insertion order and a counter that
stands in for the auto-increment key.

- `wrappers.dfy` — `Option` and `Result`.
- `schemas.dfy` (module `Schemas`) models `schemas.py`. It has the field
  constraints of `ProductCreate`, checked by `ValidateCreate` against the
  reference predicate `MeetsCreateSchema`. It also has validation of a
  `List[ProductCreate]` body (`ValidateAll`), `ProductResponse` as the
  create fields plus `id`, and `ProductUpdate`, whose fields are all
  `Unset | Set(Option<T>)` with no constraints. A field sent as `null` is
  *set* and overwrites the stored value with `None`.
- `products.dfy` (module `Products`) models `products.py`. The queries are
  pure functions over `seq<Product>`: `FindIndex`, `Lookup`, `FilterCategory`,
  `Window`, `Query`, `ListProducts`. State changes are specified by
  `UpdateRows`, `RemoveId` and `NewRows`, with lemmas about each. The class
  `ProductStore` has fields `rows` and `nextId`. Its methods `CreateProduct`,
  `UpdateProduct` (the `setattr` loop), `DeleteProduct` and
  `CreateMultipleProducts` (with `InsertAll`, the insertion loop) are proved
  against those functions. It keeps the invariant `TableInvariant`: ids lie
  in `[1, nextId)` and strictly increase along the table, so they are unique
  and never reissued.
- `scenarios.dfy` — client code that follows the request sequences of
  `test.py` and asserts what the contracts let a caller conclude.

Handler outcomes are a datatype, not HTTP codes:
- `Ok(v)` — the handler succeeded.
- `NotFound` — no row has the id.
- `Invalid(errors)` — the body was rejected before the handler ran; nothing
  is stored.
- `BadResponse(errors)` — a stored row could not be serialised as
  `ProductResponse`.

`ProductResponse` inherits every `ProductCreate` constraint (`schemas.py:13`),
and the framework validates each returned row against the route's
`response_model`.

Two consequences of the code are worth stating up front:
- The `ProductCreate` constraints are not re-applied on update
  (`schemas.py:20-25`, `products.py:61-65`). An update can therefore store a
  price of 0 or a negative stock (see below).
- The bulk body is declared as `List[ProductCreate]` (`products.py:87`), so
  the whole list is validated before the handler runs. Bulk create is
  therefore all-or-nothing.

## Update does not keep the create-time constraints

`ProductUpdate` (`schemas.py:20-25`) has no range or length constraints.
`update_product` writes every set field (`products.py:61-63`) and commits
(`products.py:65`). So an update can store a price of `0`, a negative stock,
a one-letter name or a `null` in a required column.
`UpdateCanBreakCreateSchema` proves this for every such patch, and
`UpdateIsNotSchemaPreserving` gives a valid table that a zero-price update
takes out of `AllMeetCreateSchema`. Because the response schema inherits the
create constraints, the changed row can no longer be read back:
- the update itself answers `BadResponse`, although the change is already
  stored;
- every later `read_product` of that id answers `BadResponse`;
- every `read_products` page that includes the row answers `BadResponse`.

Create, bulk create and delete keep `AllMeetCreateSchema` (`InsertEffect`,
`DeleteEffect`). While it holds, every read succeeds
(`ValidRowsAlwaysSerialize`).

## Model

| member | source | states |
|---|---|---|
| `Schemas.ValidateCreate` | schemas.py:5-10 | Accepts exactly the bodies that meet the reference predicate: name 2–100 chars, price > 0, category 2–50 chars, stock ≥ 0, description free. The payload it accepts stores the same field values. On rejection it reports at least one error, and each error names a field that really breaks the rule it names. |
| `Schemas.ValidateCreateRoundTrip` | schemas.py:5-10 | Validating a payload's own fields gives the payload back exactly when it is valid. |
| `Schemas.DescriptionIsUnconstrained` | schemas.py:7 | Changing the description never changes whether a body is accepted. |
| `Schemas.ValidateAll` | products.py:86-88 | A list body is accepted iff every element is. When accepted, the order and length are kept and element i is input i validated. Otherwise at least one error is reported, and each error is justified by some element of the list. |
| `Schemas.ResponseIsCreatePlusId` | schemas.py:13-14 | A response is exactly a create payload plus an id: `WithId` and `CreatePart` are inverse. |
| `Schemas.ValidateResponse` | schemas.py:13-17 | A stored row becomes a response iff it meets the create constraints. The response then carries the row's id and every stored field unchanged. Otherwise the errors are justified. |
| `Products.IdsAreUnique` | products.py:41 | While ids strictly increase along the table, two rows with the same id are the same row. So `.first()` finds the only row with the id. |
| `Products.FindIndex` | products.py:41 | `filter(id == product_id).first()` gives the first position holding the id, or none when no row holds it. |
| `Products.Serialize` | products.py:39 | A row serialises iff it meets the create constraints, and then keeps its id and fields. Otherwise it is a `BadResponse`. |
| `Products.Lookup` | products.py:40-44 | read_product answers `NotFound` iff no row has the id. It never answers `Invalid`, and an `Ok` answer carries the requested id. |
| `Products.LookupFindsTheRow` | products.py:41-44 | With unique ids, read_product answers with the unique row carrying the id. For a valid row that answer is `Ok` with the row's fields. |
| `Products.FilterCategory` | products.py:33-34 | The category filter keeps exactly the rows whose category equals the given one. |
| `Products.FilterKeepsOrder` | products.py:34 | Filtering keeps the table order. |
| `Products.Window` | products.py:36 | `offset(skip).limit(limit)` gives at most `limit` items. It has exactly `min(limit, len - skip)` items (0 when skip ≥ len), and item i is input item `skip + i`. |
| `Products.Query` | products.py:30-36 | Listing returns at most `limit` rows, all from the table. With a truthy category (`FilterActive`: neither `None` nor `""`, as Python's `if category:` tests), every returned row has that category. Otherwise there is no filtering, and the result is the window over the table itself. |
| `Products.QueryWithCategory` | products.py:33-36 | With a non-empty category, the query is the window over exactly the matching rows, in table order. |
| `Products.SerializeAll` | products.py:23 | A list of rows serialises iff every row meets the create constraints, keeping length, order, ids and fields. |
| `Products.ListProducts` | products.py:24-36 | read_products answers `Ok` or `BadResponse`, and `Ok` iff every row the query selects is valid. An `Ok` page is exactly the selected rows, serialised: same length (at most `limit`), same order, and item i carries row i's id and fields. Each item has the requested category when filtering. |
| `Products.ValidRowsAlwaysSerialize` | products.py:23-44 | When every row meets the create constraints, listing always succeeds and reading answers `Ok` or `NotFound`. |
| `Products.UpdateDataMerges` | products.py:61-63 | The `setattr` loop over `dict(exclude_unset=True)` computes the field-by-field merge `Merge`: set fields (including explicit nulls) take the sent value, unset fields keep theirs. |
| `Products.PatchIdempotent` | products.py:61-63 | Applying a patch twice equals applying it once, and the empty patch changes nothing. |
| `Products.UpdateEffect` | products.py:54-67 | `UpdateRows`, update's effect on the table, keeps the table length and every id. The row with the id gets the merged fields, and every other row is unchanged. On an absent id the table is unchanged. |
| `Products.UpdatePreservesInvariant` | products.py:62-65 | Update keeps ids unique, ordered and issued. |
| `Products.UpdateIdempotent` | products.py:54-65 | The same update twice leaves the table as one does, and an empty update is the identity. |
| `Products.UpdateCanBreakCreateSchema` | schemas.py:20-25 | A patch that sets a value ProductCreate forbids (price ≤ 0, stock < 0, bad name length, null) stores a row that breaks the create constraints. Reading it back then answers `BadResponse`. |
| `Products.UpdateIsNotSchemaPreserving` | products.py:61-65 | There is a valid table that an accepted update takes out of the create-time constraints. |
| `Products.RemoveId` | products.py:80 | Deleting never grows the table. |
| `Products.RemoveIdMembers` | products.py:80 | After deleting, the table holds exactly the rows with another id. |
| `Products.RemoveAbsent` | products.py:73-77 | Deleting an absent id leaves the table unchanged. |
| `Products.RemoveExactlyOne` | products.py:73-81 | With unique ids, delete removes exactly the one row with the id and keeps the others in order. |
| `Products.DeleteEffect` | products.py:71-82 | Delete keeps the invariant and the create constraints. A later read of the id answers `NotFound`, and every other row remains. |
| `Products.NewRows` | products.py:90-92 | Inserting n payloads adds n rows. Row i has id `start + i` and payload i's fields. |
| `Products.InsertEffect` | products.py:16-19 | Inserting at the counter keeps the invariant. The new ids differ from every existing id and from each other. Valid payloads keep the create constraints. |
| `Products.BulkResponses` | products.py:94-98 | The bulk answer has one entry per input, in input order. Entry i has id `start + i` and input i's fields. |
| `Products.ProductStore.constructor` | main.py:13-15 | On the first start the table is empty, with the counter at the first id. |
| `Products.ProductStore.ReadProduct` | products.py:39-44 | read_product on the store: `NotFound` iff no row has the id, never `Invalid`, and `Ok` carries the id. |
| `Products.ProductStore.ReadProducts` | products.py:23-36 | read_products on the store: `Ok` or `BadResponse`, and `Ok` iff every row the query selects from the stored table is valid. An `Ok` page is exactly those rows serialised, in order, with their ids and fields: at most `limit` items, filtered by a truthy category. |
| `Products.ProductStore.CreateProduct` | products.py:14-20 | An invalid body leaves the store unchanged and returns the validation errors. A valid body appends exactly one row with the old counter as id and the submitted fields, and answers with them. The new id is fresh, old rows are unchanged, and the invariant holds. |
| `Products.ProductStore.UpdateProduct` | products.py:47-67 | The new table is `UpdateRows` of the old one. The answer is `NotFound` iff the id is absent, and then nothing changes. Otherwise the answer is what a read of the id now gives. The counter and invariant are kept. |
| `Products.ProductStore.DeleteProduct` | products.py:70-82 | The new table is `RemoveId` of the old one. The answer is `NotFound` iff the id is absent, else `Ok(())`. Afterwards a read of the id answers `NotFound`. |
| `Products.ProductStore.InsertAll` | products.py:90-92 | `add_all` and `commit` append the payloads as rows in list order, with consecutive ids from the counter. |
| `Products.ProductStore.CreateMultipleProducts` | products.py:85-98 | If any element is invalid, nothing is inserted and the errors are returned. Otherwise the rows are appended in input order. The answer has one entry per input, entry i with id `old nextId + i` and input i's fields. All new ids are distinct and fresh. |

## Left out

- HTTP concerns are not modelled: status codes (201, 204, 404, 422, 500), routing, JSON encoding and dependency injection. Outcomes are the `Outcome` datatype.
- The root endpoint and application wiring in `main.py` are not modelled. They hold only constant metadata and a startup hook.
- `database.py` is not part of this model. The following are assumptions about it:
  - Ids come from a counter that starts at 1. Each new row takes the counter's value, and the counter then goes up by one. So ids are gap-free within a bulk insert, and a deleted id is never issued again. SQLite without `AUTOINCREMENT` may reuse the highest id after that row is deleted.
  - Rows come back in insertion order.
  - Every column accepts `NULL`, so an update that sets a field to null is committed. Under a `NOT NULL` column that commit would fail instead.
  - A bulk commit assigns ids in list order.
- `skip` and `limit` are `nat`. A negative value is handled by the database backend (SQLite clamps the offset to 0 and treats a negative limit as no limit; others reject it), and that behaviour is not modelled.
- pydantic type coercion is not modelled (for example the string `"5"` accepted as an int, or an int accepted as a float). The model starts from typed field values.
- An absent required field and an explicit `null` are both reported as `Missing`.
- Bulk validation errors are concatenated without the element index that pydantic puts in their location.
- `price` is a `real`. Floating-point rounding is not modelled: the code only compares the price with 0 and copies it.
- `stock_quantity` is an unbounded integer. An integer width the database column might impose is not modelled.
- String lengths count Dafny `char`s (Unicode scalar values), like Python's `len`.
- Sessions, commits as transactions, and concurrent requests are not modelled. Each handler is one atomic step on the store.
- `Products.Query`: with a category, its own contract states only that every returned row matches. That the result is the window over exactly the matching rows is stated by `Products.QueryWithCategory`.
