/**
 * The product handlers of handlers/products.go as operations on the products
 * collection: building the query filter, listing, validated batch creation with
 * fresh ids, the read-merge-validate-write update, lookup and deletion by id.
 */
module ProductHandlers {
  import opened Common
  import opened Products
  import opened ProductStore

  /**
   * findProducts' filter loop: every key of the query mapped to its first value,
   * then `_id` replaced by the parsed ObjectId, or the whole call rejected.
   */
  method BuildFilter(q: Query) returns (r: Result<Filter, Error>)
    requires WellFormedQuery(q)
    ensures r == FilterOf(q)
    ensures r.Ok? ==> forall k :: k in q && k != "_id" ==> r.value[k] == Text(q[k][0])
    ensures r.Ok? && "_id" in q ==> ObjectIdFromHex(q["_id"][0]) == Ok(r.value["_id"].oid)
  {
    var filter: Filter := map[];
    var pending := q.Keys;
    while pending != {}
      invariant pending <= q.Keys
      invariant filter.Keys == q.Keys - pending
      invariant forall k :: k in filter ==> filter[k] == Text(q[k][0])
      decreases pending
    {
      var k :| k in pending;
      filter := filter[k := Text(q[k][0])];
      pending := pending - {k};
    }
    assert filter == map k | k in q :: Text(q[k][0]);
    if "_id" in filter {
      var parsed := ObjectIdFromHex(filter["_id"].text);
      if parsed.Err? {
        return Err(parsed.error);
      }
      filter := filter["_id" := Id(parsed.value)];
    }
    r := Ok(filter);
  }

  /**
   * findProducts: a malformed `_id` fails before the collection is queried;
   * otherwise the result is exactly the stored products matching the filter.
   */
  method FindProducts(col: ProductCollection, q: Query) returns (r: Result<seq<Product>, Error>)
    requires col.Valid() && WellFormedQuery(q)
    ensures FilterOf(q).Err? <==> r == Err(InvalidHex)
    ensures r.Ok? ==> FilterOf(q).Ok? && ExactlyMatching(r.value, col.docs, FilterOf(q).value)
    ensures FilterOf(q).Ok? ==> r.Ok? || r == Err(StoreFault)
  {
    var filter := BuildFilter(q);
    if filter.Err? {
      return Err(filter.error);
    }
    r := col.Find(filter.value);
  }

  /**
   * CreateProducts' validation loop: the first product that fails validation
   * stops it with that product's violations.
   */
  method ValidateEach(products: seq<Product>) returns (err: Option<Error>)
    ensures err.None? <==> AllValid(products)
    ensures err.Some? ==> exists k :: 0 <= k < |products| && AllValid(products[..k])
                                      && err.value == ValidationFailed(ProductViolations(products[k]))
                                      && !ValidProduct(products[k])
  {
    for i := 0 to |products|
      invariant AllValid(products[..i])
    {
      var violations := ProductViolations(products[i]);
      if violations != [] {
        err := Some(ValidationFailed(violations));
        assert 0 <= i < |products| && AllValid(products[..i])
               && err.value == ValidationFailed(ProductViolations(products[i]))
               && !ValidProduct(products[i]);
        return;
      }
      assert products[..i + 1] == products[..i] + [products[i]];
    }
    assert products[..|products|] == products;
    err := None;
  }

  /**
   * `after` is `before` with products[i] inserted under the fresh, distinct id
   * ids[i] for each i < |ids|, and nothing else changed.
   */
  ghost predicate Appended(before: map<ObjectId, Product>, after: map<ObjectId, Product>,
                           products: seq<Product>, ids: seq<ObjectId>)
  {
    && |ids| <= |products|
    && (forall i, j :: 0 <= i < j < |ids| ==> ids[i] != ids[j])
    && (forall i :: 0 <= i < |ids| ==>
          ids[i] !in before && ids[i] in after && after[ids[i]] == products[i].(id := ids[i]))
    && (forall id :: id in before ==> id in after && after[id] == before[id])
    && (forall id :: id in after ==> id in before || id in ids)
  }

  /**
   * insertProducts: each product gets a new ObjectId and is inserted in turn; the
   * ids come back in input order. The first failed insert ends the call with no
   * ids, and the products inserted before it stay in the collection (`committed`).
   */
  method InsertProducts(col: ProductCollection, products: seq<Product>)
    returns (r: Result<seq<ObjectId>, Error>, ghost committed: seq<ObjectId>)
    requires col.Valid()
    modifies col
    ensures col.Valid()
    ensures Appended(old(col.docs), col.docs, products, committed)
    ensures r.Ok? ==> r.value == committed && |committed| == |products|
    ensures r.Err? ==> |committed| < |products| && (r.error == StoreFault || r.error == DuplicateKey)
  {
    var ids: seq<ObjectId> := [];
    for i := 0 to |products|
      invariant col.Valid()
      invariant |ids| == i
      invariant Appended(old(col.docs), col.docs, products, ids)
    {
      var newId := NewObjectId();
      var inserted := col.InsertOne(products[i].(id := newId));
      if inserted.Err? {
        r, committed := Err(inserted.error), ids;
        return;
      }
      ids := ids + [newId];
    }
    r, committed := Ok(ids), ids;
  }

  /**
   * CreateProducts: bind the body, validate every product, and only then insert.
   * One invalid product means nothing is inserted. Only validated products reach
   * the collection, so a collection of valid products stays one.
   */
  method CreateProducts(col: ProductCollection, body: Option<seq<Product>>)
    returns (r: Result<seq<ObjectId>, Error>, ghost committed: seq<ObjectId>)
    requires col.Valid()
    modifies col
    ensures col.Valid()
    ensures body.None? <==> r == Err(BindFailed)
    ensures body.None? ==> col.docs == old(col.docs)
    ensures body.Some? && !AllValid(body.value) <==> r.Err? && r.error.ValidationFailed?
    ensures r.Err? && r.error.ValidationFailed? ==>
              exists k :: 0 <= k < |body.value| && AllValid(body.value[..k]) && !ValidProduct(body.value[k])
                          && r.error == ValidationFailed(ProductViolations(body.value[k]))
    ensures body.Some? && AllValid(body.value) ==> r.Ok? || r.error == StoreFault || r.error == DuplicateKey
    ensures r.Err? && (r.error.ValidationFailed? || r.error == BindFailed) ==> col.docs == old(col.docs)
    ensures body.Some? ==> Appended(old(col.docs), col.docs, body.value, committed)
    ensures committed != [] ==> body.Some? && AllValid(body.value)
    ensures r.Ok? ==> body.Some? && AllValid(body.value) && r.value == committed && |committed| == |body.value|
    ensures StoredValid(old(col.docs)) ==> StoredValid(col.docs)
  {
    committed := [];
    if body.None? {
      return Err(BindFailed), committed;
    }
    var products := body.value;
    var invalid := ValidateEach(products);
    if invalid.Some? {
      return Err(invalid.value), committed;
    }
    r, committed := InsertProducts(col, products);
  }

  /**
   * modifyProduct: parse the id, fetch the stored product, decode the payload on top
   * of it, validate the merge, then write it back with `$set`. Every failure leaves
   * the collection unchanged; on success the document at that id becomes the merged
   * product, no other document changes, and the merged product is returned.
   */
  method ModifyProduct(col: ProductCollection, id: string, payload: Option<ProductPatch>)
    returns (r: Result<Product, Error>)
    requires col.Valid()
    modifies col
    ensures col.Valid()
    ensures r.Err? ==> col.docs == old(col.docs)
    ensures ObjectIdFromHex(id).Err? <==> r == Err(InvalidHex)
    ensures r.Ok? ==>
      && ObjectIdFromHex(id).Ok? && payload.Some?
      && var oid := ObjectIdFromHex(id).value;
         && oid in old(col.docs)
         && r.value == Merge(old(col.docs)[oid], payload.value)
         && ValidProduct(r.value) && r.value.id == oid
         && col.docs == old(col.docs)[oid := r.value]
    ensures ObjectIdFromHex(id).Ok? && ObjectIdFromHex(id).value !in old(col.docs) ==> r.Err?
    ensures r == Err(NoDocuments) ==> ObjectIdFromHex(id).Ok? && ObjectIdFromHex(id).value !in old(col.docs)
    ensures ObjectIdFromHex(id).Ok? && ObjectIdFromHex(id).value !in old(col.docs) ==>
              r == Err(NoDocuments) || r == Err(StoreFault)
    ensures payload.None? ==> r.Err?
    ensures r == Err(PayloadUndecodable) ==> payload.None?
    ensures ObjectIdFromHex(id).Ok? && ObjectIdFromHex(id).value in old(col.docs) && payload.Some? ==>
      var merged := Merge(old(col.docs)[ObjectIdFromHex(id).value], payload.value);
      && (!ValidProduct(merged) ==> r == Err(ValidationFailed(ProductViolations(merged))) || r == Err(StoreFault))
      && (r.Err? && r.error.ValidationFailed? ==> r.error == ValidationFailed(ProductViolations(merged)))
      && (merged.id != ObjectIdFromHex(id).value ==> r.Err?)
      && (ValidProduct(merged) && merged.id == ObjectIdFromHex(id).value ==> r.Ok? || r == Err(StoreFault))
    ensures r.Err? && r.error.ValidationFailed? ==>
      && ObjectIdFromHex(id).Ok? && ObjectIdFromHex(id).value in old(col.docs) && payload.Some?
      && !ValidProduct(Merge(old(col.docs)[ObjectIdFromHex(id).value], payload.value))
    ensures r == Err(ImmutableField) ==>
      && ObjectIdFromHex(id).Ok? && ObjectIdFromHex(id).value in old(col.docs) && payload.Some?
      && Merge(old(col.docs)[ObjectIdFromHex(id).value], payload.value).id != ObjectIdFromHex(id).value
    ensures r.Err? ==> r.error in {InvalidHex, NoDocuments, StoreFault, PayloadUndecodable, ImmutableField}
                       || r.error.ValidationFailed?
    ensures StoredValid(old(col.docs)) ==> StoredValid(col.docs)
  {
    var parsed := ObjectIdFromHex(id);
    if parsed.Err? {
      return Err(parsed.error);
    }
    var oid := parsed.value;
    var found := col.FindOne(oid);
    if found.Err? {
      return Err(found.error);
    }
    var product := found.value;
    if payload.None? {
      return Err(PayloadUndecodable);
    }
    product := Merge(product, payload.value);
    var violations := ProductViolations(product);
    if violations != [] {
      return Err(ValidationFailed(violations));
    }
    var err := col.UpdateOne(oid, SetDocument(product));
    if err.Some? {
      return Err(err.value);
    }
    r := Ok(product);
  }

  /** findProduct: the stored product with that id, or why there is none. */
  method FindProduct(col: ProductCollection, id: string) returns (r: Result<Product, Error>)
    ensures ObjectIdFromHex(id).Err? <==> r == Err(InvalidHex)
    ensures r.Ok? ==> ObjectIdFromHex(id).Ok? && ObjectIdFromHex(id).value in col.docs
                      && r.value == col.docs[ObjectIdFromHex(id).value]
    ensures ObjectIdFromHex(id).Ok? && ObjectIdFromHex(id).value !in col.docs ==> r.Err?
    ensures ObjectIdFromHex(id).Ok? && ObjectIdFromHex(id).value in col.docs ==> r.Ok? || r == Err(StoreFault)
    ensures r.Err? ==> r.error == InvalidHex || r.error == StoreFault
                       || (r.error == NoDocuments && ObjectIdFromHex(id).value !in col.docs)
  {
    var parsed := ObjectIdFromHex(id);
    if parsed.Err? {
      return Err(parsed.error);
    }
    r := col.FindOne(parsed.value);
  }

  /**
   * removeProduct: a malformed id gives (0, error) without touching the
   * collection; otherwise only the document with that id is deleted and the
   * count is 0 or 1.
   */
  method RemoveProduct(col: ProductCollection, id: string) returns (deleted: nat, err: Option<Error>)
    requires col.Valid()
    modifies col
    ensures col.Valid()
    ensures ObjectIdFromHex(id).Err? ==> deleted == 0 && err == Some(InvalidHex)
    ensures ObjectIdFromHex(id).Ok? ==> err.None? || err == Some(StoreFault)
    ensures err.Some? ==> deleted == 0 && col.docs == old(col.docs)
                          && (err.value == InvalidHex || err.value == StoreFault)
    ensures err.None? ==> ObjectIdFromHex(id).Ok?
                          && col.docs == old(col.docs) - {ObjectIdFromHex(id).value}
                          && deleted == (if ObjectIdFromHex(id).value in old(col.docs) then 1 else 0)
    ensures StoredValid(old(col.docs)) ==> StoredValid(col.docs)
  {
    var parsed := ObjectIdFromHex(id);
    if parsed.Err? {
      return 0, Some(parsed.error);
    }
    var res := col.DeleteOne(parsed.value);
    if res.Err? {
      return 0, Some(res.error);
    }
    deleted, err := res.value, None;
  }
}
