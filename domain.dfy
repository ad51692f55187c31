/** The platform-neutral records every consumer of the catalog sees, and
    their JSON shape on the wire. Nothing here knows about the CMS. */
module Domain {
  import opened Wrappers
  import opened Sequences

  /** A rich-text document. Its tree is rendered by external libraries and
      never inspected by the catalog, so the model keeps it opaque. */
  datatype Document = Document(tree: string)

  /** A category; an absent description is `None`, never an empty document. */
  datatype Category = Category(id: string, name: string, description: Option<Document>, order: int)

  /** A product: the description is always present, the category is named by
      one identifier, and the image is a URL that may be empty but is never absent. */
  datatype Product = Product(id: string, name: string, description: Document, categoryId: string, image: string)

  /** Values that appear in a serialized record. */
  datatype JsonValue = JString(text: string) | JNumber(number: int) | JDocument(document: Document)

  type JsonObject = map<string, JsonValue>

  /** Keys a platform-specific (CMS-native) record would carry. */
  const StoreNativeKeys: set<string> := {"sys", "fields", "metadata"}

  /** The JSON object a category becomes; an absent description is an omitted key. */
  function CategoryJson(c: Category): (obj: JsonObject)
    ensures obj.Keys == {"id", "name", "order"} + (if c.description.Some? then {"description"} else {})
    ensures obj.Keys !! StoreNativeKeys
  {
    var base := map["id" := JString(c.id), "name" := JString(c.name), "order" := JNumber(c.order)];
    match c.description
    case Some(d) => base["description" := JDocument(d)]
    case None => base
  }

  /** The JSON object a product becomes: exactly its five fields. */
  function ProductJson(p: Product): (obj: JsonObject)
    ensures obj.Keys == {"id", "name", "description", "categoryId", "image"}
    ensures obj.Keys !! StoreNativeKeys
  {
    map["id" := JString(p.id), "name" := JString(p.name), "description" := JDocument(p.description),
        "categoryId" := JString(p.categoryId), "image" := JString(p.image)]
  }

  /** Reads a category back from its JSON object, as a consumer would. */
  function CategoryFromJson(obj: JsonObject): Option<Category>
  {
    if "id" in obj && obj["id"].JString? && "name" in obj && obj["name"].JString?
       && "order" in obj && obj["order"].JNumber?
       && ("description" in obj ==> obj["description"].JDocument?)
    then
      var description := if "description" in obj then Some(obj["description"].document) else None;
      Some(Category(obj["id"].text, obj["name"].text, description, obj["order"].number))
    else None
  }

  /** Reads a product back from its JSON object, as a consumer would. */
  function ProductFromJson(obj: JsonObject): Option<Product>
  {
    if "id" in obj && obj["id"].JString? && "name" in obj && obj["name"].JString?
       && "description" in obj && obj["description"].JDocument?
       && "categoryId" in obj && obj["categoryId"].JString?
       && "image" in obj && obj["image"].JString?
    then Some(Product(obj["id"].text, obj["name"].text, obj["description"].document,
                      obj["categoryId"].text, obj["image"].text))
    else None
  }

  /** The JSON form of a category loses nothing, an absent description included. */
  lemma CategoryJsonRoundTrip(c: Category)
    ensures CategoryFromJson(CategoryJson(c)) == Some(c)
  {
  }

  /** The JSON form of a product loses nothing. */
  lemma ProductJsonRoundTrip(p: Product)
    ensures ProductFromJson(ProductJson(p)) == Some(p)
  {
  }

  /** The products whose `categoryId` is `categoryId`, in their original order. */
  function ProductsInCategory(products: seq<Product>, categoryId: string): (r: seq<Product>)
    ensures forall p | p in r :: p in products && p.categoryId == categoryId
    ensures forall p | p in products && p.categoryId == categoryId :: p in r
    ensures IsSubsequence(r, products)
    decreases |products|
  {
    if products == [] then []
    else
      var rest := ProductsInCategory(products[1..], categoryId);
      assert forall p | p in products && p != products[0] :: p in products[1..];
      if products[0].categoryId == categoryId then [products[0]] + rest
      else
        assert rest == [] || rest[0] != products[0];
        rest
  }

  /** Selecting by category commutes with concatenation, so the selection
      keeps every matching product exactly where its neighbours put it. */
  lemma {:induction false} ProductsInCategoryAppend(a: seq<Product>, b: seq<Product>, categoryId: string)
    ensures ProductsInCategory(a + b, categoryId) == ProductsInCategory(a, categoryId) + ProductsInCategory(b, categoryId)
    decreases |a|
  {
    if a == [] {
      assert a + b == b;
    } else {
      assert (a + b)[1..] == a[1..] + b;
      ProductsInCategoryAppend(a[1..], b, categoryId);
    }
  }
}
