/** The `GET /` handler of the products router: chooses the listing from the
    `categoryId` query value and turns a thrown error into a 500 body. */
module ProductsRoute {
  import opened Wrappers
  import opened Domain
  import opened Contentful

  /** A parsed query-string value: absent, one string, or something else
      (a repeated parameter's array, a nested object). */
  datatype QueryValue = Absent | Text(text: string) | NotText

  /** Whatever a `catch` receives: an `Error` with its message, or any other value. */
  datatype Thrown = ErrorObject(message: string) | OtherValue

  /** The response: the product list as JSON, or an error body. */
  datatype Response = ProductList(products: seq<Product>) | ErrorBody(error: string, message: string)

  const HandlerErrorName := "Failed to fetch products"

  /** The HTTP status of a response: the list is sent with the default 200. */
  function Status(r: Response): (code: nat)
    ensures code == 200 || code == 500
    ensures code == 500 <==> r.ErrorBody?
  {
    if r.ProductList? then 200 else 500
  }

  /** The category to filter by: only a non-empty string selects one. */
  function CategoryFilter(q: QueryValue): (r: Option<string>)
    ensures r.Some? <==> q.Text? && q.text != ""
    ensures r.Some? ==> r.value == q.text
  {
    match q
    case Text(s) => if s != "" then Some(s) else None
    case _ => None
  }

  /** The 500 body built in the `catch`. */
  function ErrorResponse(thrown: Thrown): (r: Response)
    ensures r.ErrorBody? && r.error == HandlerErrorName
    ensures thrown.ErrorObject? ==> r.message == thrown.message
    ensures thrown.OtherValue? ==> r.message == "Unknown error"
  {
    match thrown
    case ErrorObject(m) => ErrorBody(HandlerErrorName, m)
    case OtherValue => ErrorBody(HandlerErrorName, "Unknown error")
  }

  /** A service outcome as a response: the list unchanged, or the thrown error's body. */
  function Respond(outcome: Result<seq<Product>, FetchFailure>): (r: Response)
    ensures outcome.Success? <==> r.ProductList?
    ensures outcome.Success? ==> r.products == outcome.value
    ensures outcome.Failure? ==> r == ErrorBody(HandlerErrorName, outcome.error.message)
  {
    match outcome
    case Success(ps) => ProductList(ps)
    case Failure(f) => ErrorResponse(ErrorObject(f.message))
  }

  /** The handler, given the query value and the product store it lists from. */
  function HandleGetProducts(q: QueryValue, store: Result<seq<ProductEntry>, StoreError>): (r: Response)
    ensures CategoryFilter(q).Some? ==> r == Respond(GetProductsByCategory(q.text, store))
    ensures CategoryFilter(q).None? ==> r == Respond(GetProducts(store))
  {
    match CategoryFilter(q)
    case Some(categoryId) => Respond(GetProductsByCategory(categoryId, store))
    case None => Respond(GetProducts(store))
  }

  /** A store failure on a filtered request surfaces the service's by-category
      message under the handler's fixed error name, with status 500. */
  lemma FilteredFailureBody(categoryId: string, detail: string)
    requires categoryId != ""
    ensures var r := HandleGetProducts(Text(categoryId), Failure(StoreError(detail)));
            && Status(r) == 500
            && r == ErrorBody("Failed to fetch products", "Failed to fetch products by category")
  {
  }

  /** An absent, empty or non-string `categoryId` lists every product. */
  lemma UnfilteredRequestsListAll(q: QueryValue, store: Result<seq<ProductEntry>, StoreError>)
    requires q.Absent? || q.NotText? || q == Text("")
    ensures HandleGetProducts(q, store) == HandleGetProducts(Absent, store)
    ensures GetProducts(store).Success? ==> HandleGetProducts(q, store) == ProductList(GetProducts(store).value)
  {
  }

  /** Whenever the full listing succeeds, a filtered request answers exactly
      the full listing's products of that category, in the same order. */
  lemma FilteredRequestMatchesFullListing(categoryId: string, store: Result<seq<ProductEntry>, StoreError>)
    requires categoryId != ""
    requires GetProducts(store).Success?
    ensures HandleGetProducts(Text(categoryId), store)
            == ProductList(ProductsInCategory(GetProducts(store).value, categoryId))
  {
    ByCategoryIsFilteredListing(categoryId, store);
  }

  /** The request `categoryId=c1` against a store with one product in each of
      two categories answers just the first product, image URL untouched. */
  lemma FilteredRequestScenario()
    ensures var doc := Document("");
            var asset := (url: string) => Some(Asset(Some(AssetFields(Some(AssetFile(Some(UrlString(url))))))));
            var e1 := ProductEntry(Sys("p1"), ProductFields("ISA", doc, EntryLink(Sys("c1")), asset("//x/a.png")));
            var e2 := ProductEntry(Sys("p2"), ProductFields("Pension", doc, EntryLink(Sys("c2")), asset("//x/b.png")));
            HandleGetProducts(Text("c1"), Success([e1, e2]))
            == ProductList([Product("p1", "ISA", doc, "c1", "//x/a.png")])
  {
    var doc := Document("");
    var asset := (url: string) => Some(Asset(Some(AssetFields(Some(AssetFile(Some(UrlString(url))))))));
    var e1 := ProductEntry(Sys("p1"), ProductFields("ISA", doc, EntryLink(Sys("c1")), asset("//x/a.png")));
    var e2 := ProductEntry(Sys("p2"), ProductFields("Pension", doc, EntryLink(Sys("c2")), asset("//x/b.png")));
    var items := [e1, e2];
    var p1 := Product("p1", "ISA", doc, "c1", "//x/a.png");
    assert items[1..] == [e2] && items[1..][1..] == [];
    assert StoreQueryByCategory([e2], "c1") == [];
    assert StoreQueryByCategory(items, "c1") == [e1];
    assert [e1][1..] == [];
    assert MapProduct(e1) == Some(p1);
    assert MapProducts([]) == Some([]);
    assert [p1] + [] == [p1];
    assert MapProducts([e1]) == Some([p1]);
  }
}
