/**
 * Client code over the store, following the request sequences of the
 * repository's tests: what a caller can conclude from the handlers'
 * contracts alone.
 */
module Scenarios {
  import opened Wrappers
  import opened Schemas
  import opened Products

  function Body(name: string, description: string): Fields {
    Fields(Some(name), Some(description), Some(19.99), Some("Test Category"), Some(100))
  }

  /** Creating a valid product answers with the submitted fields and a fresh id. */
  method CreateThenRead() {
    var store := new ProductStore();
    var body := Body("Test Product", "A test product");
    var created := store.CreateProduct(body);
    assert created.Ok?;
    assert created.value.name == "Test Product";
    var listed := store.ReadProducts(DefaultSkip, DefaultLimit, None);
    assert AllMeetCreateSchema(store.rows);
    ValidRowsAlwaysSerialize(store.rows, DefaultSkip, DefaultLimit, None, created.value.id);
    assert listed.Ok? && |listed.value| == 1;
  }

  /** A partial update overwrites the sent fields and keeps the others. */
  method UpdateNameAndPrice() {
    var store := new ProductStore();
    var created := store.CreateProduct(Body("Original Product", "Original description"));
    assert created.Ok?;
    var id := created.value.id;
    var patch := EmptyUpdate.(name := Set(Some("Updated Product")), price := Set(Some(29.99)));
    var updated := store.UpdateProduct(id, patch);
    assert store.rows == [Product(id, Merge(Body("Original Product", "Original description"), patch))];
    LookupFindsTheRow(store.rows, id, 0);
    assert updated.Ok?;
    assert updated.value.name == "Updated Product" && updated.value.price == 29.99;
    assert updated.value.category == "Test Category" && updated.value.stockQuantity == 100;
  }

  /** After a delete, reading the id answers NotFound. */
  method DeleteThenRead() {
    var store := new ProductStore();
    var created := store.CreateProduct(Body("Product to Delete", "Will be deleted"));
    assert created.Ok?;
    var id := created.value.id;
    var deleted := store.DeleteProduct(id);
    assert deleted == Ok(());
    assert store.ReadProduct(id) == NotFound;
  }

  /** An update to price 0 is accepted and stored; reading the row back then fails. */
  method ZeroPriceUpdate() {
    var store := new ProductStore();
    var created := store.CreateProduct(Body("Widget", "Plain"));
    assert created.Ok?;
    var id := created.value.id;
    var patch := EmptyUpdate.(price := Set(Some(0.0)));
    ghost var before := store.rows;
    var updated := store.UpdateProduct(id, patch);
    UpdateCanBreakCreateSchema(before, id, patch, 0);
    assert updated.BadResponse?;
    assert store.rows[0].fields.price == Some(0.0);
  }
}
