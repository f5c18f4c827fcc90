/**
 * The Product entity of handlers/products.go and the pure logic around it: the
 * validator tags on its fields, the merge of a JSON payload onto a stored product,
 * the `$set` document an update sends to the store, and the query filter with the
 * store's equality matching.
 */
module Products {
  import opened Common

  /** A product as stored; `id` is the document's _id. */
  datatype Product = Product(
    id: ObjectId,
    name: string,          // product_name
    price: int,            // price
    currency: string,      // currency
    discount: int,         // discount
    vendor: string,        // vendor
    accessories: seq<string>,
    isEssential: bool)     // is_essential

  const MaxNameLength := 10
  const MaxPrice := 200
  const CurrencyLength := 3

  /**
   * The validator tags on Product: `required,max=10` on the name, `required,max=200`
   * on the price (required on an int means non-zero, so negative prices pass),
   * `required,len=3` on the currency and `required` on the vendor. Lengths count
   * characters. Discount, accessories and the essential flag carry no tags.
   */
  predicate ValidProduct(p: Product) {
    && p.name != [] && |p.name| <= MaxNameLength
    && p.price != 0 && p.price <= MaxPrice
    && |p.currency| == CurrencyLength
    && p.vendor != []
  }

  /** No two violations name the same field. */
  predicate DistinctFields(vs: seq<Violation>) {
    forall i, j :: 0 <= i < j < |vs| ==> vs[i].field != vs[j].field
  }

  /** Every violation names a field of `names`. */
  predicate FieldsIn(vs: seq<Violation>, names: set<string>) {
    forall i :: 0 <= i < |vs| ==> vs[i].field in names
  }

  /** Joining violations about disjoint sets of fields keeps the fields distinct. */
  lemma JoinDistinct(a: seq<Violation>, b: seq<Violation>, na: set<string>, nb: set<string>)
    requires DistinctFields(a) && FieldsIn(a, na)
    requires DistinctFields(b) && FieldsIn(b, nb)
    requires na !! nb
    ensures DistinctFields(a + b) && FieldsIn(a + b, na + nb)
  {
    var ab := a + b;
    forall i, j | 0 <= i < j < |ab|
      ensures ab[i].field != ab[j].field
    {
      if j < |a| {
        assert ab[i] == a[i] && ab[j] == a[j];
      } else if i >= |a| {
        assert ab[i] == b[i - |a|] && ab[j] == b[j - |a|];
      } else {
        assert ab[i].field in na && ab[j].field in nb;
      }
    }
  }

  /**
   * The field errors the validator reports, in field order; per field only the first
   * failing tag is reported.
   */
  function ProductViolations(p: Product): (vs: seq<Violation>)
    ensures vs == [] <==> ValidProduct(p)
    ensures |vs| <= 4
  {
    NameViolation(p) + PriceViolation(p) + CurrencyViolation(p) + VendorViolation(p)
  }

  function NameViolation(p: Product): (vs: seq<Violation>)
    ensures DistinctFields(vs) && FieldsIn(vs, {"Name"})
  {
    if p.name == [] then [Violation("Name", "required")]
    else if |p.name| > MaxNameLength then [Violation("Name", "max")] else []
  }

  function PriceViolation(p: Product): (vs: seq<Violation>)
    ensures DistinctFields(vs) && FieldsIn(vs, {"Price"})
  {
    if p.price == 0 then [Violation("Price", "required")]
    else if p.price > MaxPrice then [Violation("Price", "max")] else []
  }

  function CurrencyViolation(p: Product): (vs: seq<Violation>)
    ensures DistinctFields(vs) && FieldsIn(vs, {"Currency"})
  {
    if p.currency == [] then [Violation("Currency", "required")]
    else if |p.currency| != CurrencyLength then [Violation("Currency", "len")] else []
  }

  function VendorViolation(p: Product): (vs: seq<Violation>)
    ensures DistinctFields(vs) && FieldsIn(vs, {"Vendor"})
  {
    if p.vendor == [] then [Violation("Vendor", "required")] else []
  }

  /** The validator reports each field at most once. */
  lemma ViolationFieldsDistinct(p: Product)
    ensures DistinctFields(ProductViolations(p))
  {
    var name, price, currency := NameViolation(p), PriceViolation(p), CurrencyViolation(p);
    JoinDistinct(name, price, {"Name"}, {"Price"});
    JoinDistinct(name + price, currency, {"Name", "Price"}, {"Currency"});
    JoinDistinct(name + price + currency, VendorViolation(p), {"Name", "Price", "Currency"}, {"Vendor"});
  }

  predicate AllValid(ps: seq<Product>) {
    forall i :: 0 <= i < |ps| ==> ValidProduct(ps[i])
  }

  /** Every stored product satisfies the validator tags. */
  predicate StoredValid(docs: map<ObjectId, Product>) {
    forall id :: id in docs ==> ValidProduct(docs[id])
  }

  /**
   * The product of the creation test payload (price at the bound, a three-letter
   * currency) is accepted, a negative price is accepted, and one unit over the
   * bound is not.
   */
  lemma ValidationBoundary(id: ObjectId)
    ensures ValidProduct(Product(id, "vivo", 200, "USD", 0, "samsung", ["charger", "manual"], false))
    ensures ValidProduct(Product(id, "vivo", -5, "USD", 0, "samsung", [], false))
    ensures !ValidProduct(Product(id, "vivo", 201, "USD", 0, "samsung", [], false))
    ensures ProductViolations(Product(id, "vivo", 201, "US", 0, "", [], false))
            == [Violation("Price", "max"), Violation("Currency", "len"), Violation("Vendor", "required")]
  {
  }

  /**
   * A decoded JSON update payload or a `$set` document: a field is Some when the
   * document carries it. A JSON `null` leaves a scalar field untouched (None) and
   * sets the accessories list to nil (Some([])).
   */
  datatype ProductPatch = ProductPatch(
    id: Option<ObjectId>,
    name: Option<string>,
    price: Option<int>,
    currency: Option<string>,
    discount: Option<int>,
    vendor: Option<string>,
    accessories: Option<seq<string>>,
    isEssential: Option<bool>)

  const NoChange := ProductPatch(None, None, None, None, None, None, None, None)

  function Pick<T>(o: Option<T>, keep: T): T {
    if o.Some? then o.value else keep
  }

  /**
   * Decoding a document on top of `p`: fields present in the patch overwrite,
   * absent fields keep p's value. Used both for the JSON payload decoded into the
   * fetched product and for the store applying a `$set` document.
   */
  function Merge(p: Product, patch: ProductPatch): (m: Product)
    ensures ChangedFields(p, m) <= PresentFields(patch)
  {
    Product(
      Pick(patch.id, p.id),
      Pick(patch.name, p.name),
      Pick(patch.price, p.price),
      Pick(patch.currency, p.currency),
      Pick(patch.discount, p.discount),
      Pick(patch.vendor, p.vendor),
      Pick(patch.accessories, p.accessories),
      Pick(patch.isEssential, p.isEssential))
  }

  /** The names (JSON/BSON keys) of the fields a patch carries. */
  function PresentFields(patch: ProductPatch): set<string> {
    (if patch.id.Some? then {"_id"} else {})
    + (if patch.name.Some? then {"product_name"} else {})
    + (if patch.price.Some? then {"price"} else {})
    + (if patch.currency.Some? then {"currency"} else {})
    + (if patch.discount.Some? then {"discount"} else {})
    + (if patch.vendor.Some? then {"vendor"} else {})
    + (if patch.accessories.Some? then {"accessories"} else {})
    + (if patch.isEssential.Some? then {"is_essential"} else {})
  }

  /** The names of the fields on which two products differ. */
  function ChangedFields(p: Product, q: Product): set<string> {
    (if p.id != q.id then {"_id"} else {})
    + (if p.name != q.name then {"product_name"} else {})
    + (if p.price != q.price then {"price"} else {})
    + (if p.currency != q.currency then {"currency"} else {})
    + (if p.discount != q.discount then {"discount"} else {})
    + (if p.vendor != q.vendor then {"vendor"} else {})
    + (if p.accessories != q.accessories then {"accessories"} else {})
    + (if p.isEssential != q.isEssential then {"is_essential"} else {})
  }

  /** The patch that carries every field of `p`. */
  function Full(p: Product): ProductPatch {
    ProductPatch(Some(p.id), Some(p.name), Some(p.price), Some(p.currency),
                 Some(p.discount), Some(p.vendor), Some(p.accessories), Some(p.isEssential))
  }

  /**
   * A merge takes every field the payload carries from the payload: on those
   * fields the result does not depend on the stored product.
   */
  lemma MergeTakesPresentFields(p: Product, q: Product, patch: ProductPatch)
    ensures patch.id.Some? ==> Merge(p, patch).id == Merge(q, patch).id
    ensures patch.name.Some? ==> Merge(p, patch).name == Merge(q, patch).name
    ensures patch.price.Some? ==> Merge(p, patch).price == Merge(q, patch).price
    ensures patch.currency.Some? ==> Merge(p, patch).currency == Merge(q, patch).currency
    ensures patch.discount.Some? ==> Merge(p, patch).discount == Merge(q, patch).discount
    ensures patch.vendor.Some? ==> Merge(p, patch).vendor == Merge(q, patch).vendor
    ensures patch.accessories.Some? ==> Merge(p, patch).accessories == Merge(q, patch).accessories
    ensures patch.isEssential.Some? ==> Merge(p, patch).isEssential == Merge(q, patch).isEssential
  {
  }

  /** An empty payload changes nothing; a complete one replaces the product. */
  lemma MergeIdentityAndReplace(p: Product, q: Product)
    ensures Merge(p, NoChange) == p
    ensures Merge(p, Full(q)) == q
  {
  }

  /** Overlaying `a` and then `b` on a product. */
  function Overlay(a: ProductPatch, b: ProductPatch): ProductPatch {
    ProductPatch(
      if b.id.Some? then b.id else a.id,
      if b.name.Some? then b.name else a.name,
      if b.price.Some? then b.price else a.price,
      if b.currency.Some? then b.currency else a.currency,
      if b.discount.Some? then b.discount else a.discount,
      if b.vendor.Some? then b.vendor else a.vendor,
      if b.accessories.Some? then b.accessories else a.accessories,
      if b.isEssential.Some? then b.isEssential else a.isEssential)
  }

  /** Merging twice is merging the overlay once; merging the same payload again is a no-op. */
  lemma MergeComposes(p: Product, a: ProductPatch, b: ProductPatch)
    ensures Merge(Merge(p, a), b) == Merge(p, Overlay(a, b))
    ensures Merge(Merge(p, a), a) == Merge(p, a)
  {
  }

  /**
   * A price-only partial update: a stored {A, 10, USD, V} with payload {price: 20}
   * becomes {A, 20, USD, V}, still valid; a payload blanking the vendor does not
   * validate.
   */
  lemma PartialUpdateExample(id: ObjectId)
    ensures var stored := Product(id, "A", 10, "USD", 0, "V", [], false);
            && Merge(stored, NoChange.(price := Some(20))) == Product(id, "A", 20, "USD", 0, "V", [], false)
            && ValidProduct(Merge(stored, NoChange.(price := Some(20))))
            && !ValidProduct(Merge(stored, NoChange.(vendor := Some(""))))
  {
  }

  // ---------------------------------------------------------------------------
  // The `$set` document sent by the update.

  /**
   * `bson.M{"$set": product}` as the struct tags marshal it: `_id` and
   * `accessories` are tagged omitempty, so a nil ObjectId and an empty accessories
   * list are left out of the document; every other field is always present.
   */
  function SetDocumentAsWritten(p: Product): (doc: ProductPatch)
    ensures doc.id.None? <==> p.id == NilObjectId
    ensures doc.accessories.None? <==> p.accessories == []
    ensures PresentFields(doc) + {"_id", "accessories"} == ProductKeys
    ensures Merge(p, doc) == p
  {
    ProductPatch(
      if p.id == NilObjectId then None else Some(p.id),
      Some(p.name), Some(p.price), Some(p.currency), Some(p.discount), Some(p.vendor),
      if p.accessories == [] then None else Some(p.accessories),
      Some(p.isEssential))
  }

  /**
   * With the marshalled `$set` as written, the stored document becomes the product
   * sent exactly when neither omitted field hides a change: an update can neither
   * clear the accessories list nor reset the id to nil.
   */
  lemma SetDocumentAsWrittenStores(stored: Product, p: Product)
    ensures Merge(stored, SetDocumentAsWritten(p)) == p
            <==> (p.accessories == [] ==> stored.accessories == [])
                 && (p.id == NilObjectId ==> stored.id == NilObjectId)
  {
    if Merge(stored, SetDocumentAsWritten(p)) == p {
      assert Merge(stored, SetDocumentAsWritten(p)).accessories == p.accessories;
      assert Merge(stored, SetDocumentAsWritten(p)).id == p.id;
    }
  }

  /**
   * The concrete case: a stored product with accessories, updated with payload
   * `{"accessories": []}`. The handler returns the merged product with no
   * accessories, but the stored document keeps them.
   */
  lemma ClearingAccessoriesIsLost(id: ObjectId)
    ensures var stored := Product(id, "vivo", 200, "USD", 0, "samsung", ["charger"], false);
            var merged := Merge(stored, NoChange.(accessories := Some([])));
            && ValidProduct(merged)
            && merged.accessories == []
            && Merge(stored, SetDocumentAsWritten(merged)).accessories == ["charger"]
  {
  }

  /** The corrected `$set` document: every field, so the store keeps what was validated. */
  function SetDocument(p: Product): (doc: ProductPatch)
    ensures forall stored :: Merge(stored, doc) == p
  {
    Full(p)
  }

  // ---------------------------------------------------------------------------
  // Query filters.

  /** A filter value: the raw text of a query parameter, or the parsed `_id`. */
  datatype FilterValue = Text(text: string) | Id(oid: ObjectId)

  type Filter = map<string, FilterValue>

  type Query = map<string, seq<string>>

  /** url.Values as parsed from a query string: every key carries at least one value. */
  predicate WellFormedQuery(q: Query) {
    forall k :: k in q ==> |q[k]| > 0
  }

  /**
   * The filter findProducts builds: the first value of every key, with `_id`
   * parsed as an ObjectId and the whole query rejected when that fails.
   */
  function FilterOf(q: Query): (r: Result<Filter, Error>)
    requires WellFormedQuery(q)
    ensures r.Err? <==> "_id" in q && ObjectIdFromHex(q["_id"][0]).Err?
    ensures r.Err? ==> r.error == InvalidHex
    ensures r.Ok? ==> r.value.Keys == q.Keys
  {
    var texts := map k | k in q :: Text(q[k][0]);
    if "_id" in q then
      match ObjectIdFromHex(q["_id"][0])
      case Ok(oid) => Ok(texts["_id" := Id(oid)])
      case Err(e) => Err(e)
    else Ok(texts)
  }

  /** The BSON keys of a stored product. */
  const ProductKeys: set<string> :=
    {"_id", "product_name", "price", "currency", "discount", "vendor", "accessories", "is_essential"}

  /**
   * The store's equality match of one filter entry against a product. A string
   * equals only a string field with the same text, or an element of an array
   * field; a string never equals the int or bool fields, and a key the document
   * does not have matches nothing.
   */
  predicate FieldMatches(p: Product, key: string, v: FilterValue) {
    match v
    case Id(oid) => key == "_id" && p.id == oid
    case Text(t) =>
      || (key == "product_name" && p.name == t)
      || (key == "currency" && p.currency == t)
      || (key == "vendor" && p.vendor == t)
      || (key == "accessories" && t in p.accessories)
  }

  predicate Matches(p: Product, f: Filter) {
    forall k :: k in f ==> FieldMatches(p, k, f[k])
  }

  /**
   * Filters are permissive: a key that is not a product field is kept as an
   * equality constraint and then matches no product; a query with no keys matches
   * every product.
   */
  lemma FilterMatchingEdges(q: Query, p: Product, k: string)
    requires WellFormedQuery(q) && FilterOf(q).Ok?
    ensures k in q && k !in ProductKeys ==> k in FilterOf(q).value && !Matches(p, FilterOf(q).value)
    ensures q == map[] ==> Matches(p, FilterOf(q).value)
  {
  }

  /**
   * A query `{vendor: "V", extraneous: "X"}` gives two equality clauses, one of
   * them on an unknown field, and matches nothing; a malformed `_id` is rejected.
   */
  lemma FilterExample(p: Product)
    ensures var q := map["vendor" := ["V"], "extraneous" := ["X"]];
            && FilterOf(q) == Ok(map["vendor" := Text("V"), "extraneous" := Text("X")])
            && !Matches(p, FilterOf(q).value)
    ensures FilterOf(map["_id" := ["xyz"]]) == Err(InvalidHex)
  {
    var q := map["vendor" := ["V"], "extraneous" := ["X"]];
    var f := FilterOf(q).value;
    assert f.Keys == {"vendor", "extraneous"};
    assert f["vendor"] == Text("V") && f["extraneous"] == Text("X");
    assert f == map["vendor" := Text("V"), "extraneous" := Text("X")];
    assert !FieldMatches(p, "extraneous", Text("X"));
  }
}
