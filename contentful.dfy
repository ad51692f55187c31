/** The content service: turns the CMS's entries (identifiers under `sys`,
    values under `fields`, linked entries and assets) into domain records.
    The store itself is an input: a listing call either returns the entries
    or fails with a transport error. */
module Contentful {
  import opened Wrappers
  import opened Domain
  import opened Sequences

  // ---------------------------------------------------------------------
  // The CMS-native shapes, as the store hands them over
  // ---------------------------------------------------------------------

  datatype Sys = Sys(id: string)

  datatype CategoryFields = CategoryFields(name: string, description: Option<Document>, order: int)

  datatype CategoryEntry = CategoryEntry(sys: Sys, fields: CategoryFields)

  /** The run-time type of an asset's `file.url`: a string, or anything else. */
  datatype UrlValue = UrlString(url: string) | UrlNotString

  datatype AssetFile = AssetFile(url: Option<UrlValue>)

  datatype AssetFields = AssetFields(file: Option<AssetFile>)

  /** An image asset; an unresolved link arrives without `fields`. */
  datatype Asset = Asset(fields: Option<AssetFields>)

  /** A link to another entry, resolved or not; it always carries the target's id. */
  datatype EntryLink = EntryLink(sys: Sys)

  datatype ProductFields = ProductFields(name: string, description: Document, category: EntryLink, image: Option<Asset>)

  datatype ProductEntry = ProductEntry(sys: Sys, fields: ProductFields)

  /** Whatever the store call threw: network, authentication or response errors. */
  datatype StoreError = StoreError(detail: string)

  /** The single error the service throws; its message is fixed per operation. */
  datatype FetchFailure = FetchFailure(message: string)

  const CategoriesFailureMessage := "Failed to fetch categories"
  const ProductsFailureMessage := "Failed to fetch products"
  const ProductsByCategoryFailureMessage := "Failed to fetch products by category"

  // ---------------------------------------------------------------------
  // Categories
  // ---------------------------------------------------------------------

  /** One category entry as a domain category. */
  function MapCategory(item: CategoryEntry): (c: Category)
    ensures c.id == item.sys.id
    ensures c.name == item.fields.name && c.description == item.fields.description
    ensures c.order == item.fields.order
  {
    Category(item.sys.id, item.fields.name, item.fields.description, item.fields.order)
  }

  /** The one category entry that maps to `c`. */
  function CategoryEntryFor(c: Category): (item: CategoryEntry)
    ensures MapCategory(item) == c
  {
    CategoryEntry(Sys(c.id), CategoryFields(c.name, c.description, c.order))
  }

  /** The category mapping neither drops nor invents information. */
  lemma MapCategoryLossless(item: CategoryEntry)
    ensures CategoryEntryFor(MapCategory(item)) == item
  {
  }

  /** `items.map(MapCategory)`. */
  function MapCategories(items: seq<CategoryEntry>): (cs: seq<Category>)
    ensures |cs| == |items|
    ensures forall i | 0 <= i < |items| :: cs[i] == MapCategory(items[i])
  {
    if items == [] then [] else [MapCategory(items[0])] + MapCategories(items[1..])
  }

  /** The listing of categories, given the store's answer to the query for
      all `category` entries sorted by `fields.order`. */
  function GetCategories(response: Result<seq<CategoryEntry>, StoreError>): (r: Result<seq<Category>, FetchFailure>)
    ensures response.Failure? <==> r.Failure?
    ensures r.Failure? ==> r.error == FetchFailure(CategoriesFailureMessage)
    ensures r.Success? ==> |r.value| == |response.value|
    ensures r.Success? ==> forall i | 0 <= i < |r.value| :: r.value[i] == MapCategory(response.value[i])
  {
    match response
    case Failure(_) => Failure(FetchFailure(CategoriesFailureMessage))
    case Success(items) => Success(MapCategories(items))
  }

  /** The store's ordering: entries ascending by `fields.order`. */
  predicate EntriesSortedByOrder(items: seq<CategoryEntry>)
  {
    forall i, j | 0 <= i < j < |items| :: items[i].fields.order <= items[j].fields.order
  }

  predicate SortedByOrder(cs: seq<Category>)
  {
    forall i, j | 0 <= i < j < |cs| :: cs[i].order <= cs[j].order
  }

  /** The service keeps the store's order: when the store sorts by `order`, a
      category with a smaller `order` is never listed after one with a larger. */
  lemma GetCategoriesKeepsStoreOrder(items: seq<CategoryEntry>)
    requires EntriesSortedByOrder(items)
    ensures GetCategories(Success(items)).Success?
    ensures SortedByOrder(GetCategories(Success(items)).value)
    ensures var cs := GetCategories(Success(items)).value;
            forall i, j | 0 <= i < |cs| && 0 <= j < |cs| && cs[i].order < cs[j].order :: i < j
  {
  }

  /** The content model's rules for a category: name of 1 to 100 characters, order at least 0. */
  predicate ValidCategoryEntry(item: CategoryEntry)
  {
    1 <= |item.fields.name| <= 100 && item.fields.order >= 0
  }

  /** Entries that obey the content model give categories with non-negative order and a non-empty name. */
  lemma GetCategoriesFromValidEntries(items: seq<CategoryEntry>)
    requires forall item | item in items :: ValidCategoryEntry(item)
    ensures forall c | c in GetCategories(Success(items)).value :: c.order >= 0 && 1 <= |c.name| <= 100
  {
    var cs := GetCategories(Success(items)).value;
    forall c | c in cs ensures c.order >= 0 && 1 <= |c.name| <= 100 {
      var i :| 0 <= i < |cs| && cs[i] == c;
      assert items[i] in items;
    }
  }

  // ---------------------------------------------------------------------
  // Products
  // ---------------------------------------------------------------------

  /** Reading `image.fields` fails when there is no asset or the asset has no `fields`. */
  predicate ImageLookupThrows(image: Option<Asset>)
  {
    image.None? || image.value.fields.None?
  }

  /** The image URL: the file's URL when it is a string, otherwise the empty
      string; `None` when the lookup itself throws. */
  function ImageUrl(image: Option<Asset>): (r: Option<string>)
    ensures r.None? <==> ImageLookupThrows(image)
    ensures r.Some? && image.value.fields.value.file.Some? && image.value.fields.value.file.value.url.Some?
            && image.value.fields.value.file.value.url.value.UrlString?
            ==> r.value == image.value.fields.value.file.value.url.value.url
    ensures r.Some? && r.value != "" ==>
            image.value.fields.value.file.Some? && image.value.fields.value.file.value.url == Some(UrlString(r.value))
  {
    match image
    case None => None
    case Some(asset) =>
      match asset.fields
      case None => None
      case Some(fields) =>
        match fields.file
        case None => Some("")
        case Some(file) =>
          match file.url
          case Some(UrlString(url)) => Some(url)
          case _ => Some("")
  }

  /** One product entry as a domain product; `None` when mapping it throws. */
  function MapProduct(item: ProductEntry): (r: Option<Product>)
    ensures r.None? <==> ImageLookupThrows(item.fields.image)
    ensures r.Some? ==> && r.value.id == item.sys.id
                        && r.value.name == item.fields.name
                        && r.value.description == item.fields.description
                        && r.value.categoryId == item.fields.category.sys.id
                        && Some(r.value.image) == ImageUrl(item.fields.image)
  {
    match ImageUrl(item.fields.image)
    case None => None
    case Some(url) =>
      Some(Product(item.sys.id, item.fields.name, item.fields.description, item.fields.category.sys.id, url))
  }

  /** `items.map(MapProduct)`: one throwing item makes the whole mapping throw. */
  function MapProducts(items: seq<ProductEntry>): (r: Option<seq<Product>>)
    ensures r.Some? <==> forall i | 0 <= i < |items| :: MapProduct(items[i]).Some?
    ensures r.Some? ==> |r.value| == |items|
    ensures r.Some? ==> forall i | 0 <= i < |items| :: Some(r.value[i]) == MapProduct(items[i])
  {
    if items == [] then Some([])
    else
      match (MapProduct(items[0]), MapProducts(items[1..]))
      case (Some(p), Some(ps)) => Some([p] + ps)
      case _ => None
  }

  /** What the store answers to a product listing: the mapping bodies of both
      product operations are identical, so both go through this one function. */
  function ProductsResponse(response: Result<seq<ProductEntry>, StoreError>, message: string): (r: Result<seq<Product>, FetchFailure>)
    ensures response.Failure? ==> r.Failure?
    ensures response.Success? ==> (r.Success? <==> MapProducts(response.value).Some?)
    ensures r.Success? ==> r.value == MapProducts(response.value).value
    ensures r.Failure? ==> r.error == FetchFailure(message)
  {
    match response
    case Failure(_) => Failure(FetchFailure(message))
    case Success(items) =>
      match MapProducts(items)
      case None => Failure(FetchFailure(message))
      case Some(ps) => Success(ps)
  }

  /** The listing of all products, given the store's product entries (or its failure). */
  function GetProducts(store: Result<seq<ProductEntry>, StoreError>): (r: Result<seq<Product>, FetchFailure>)
    ensures store.Failure? ==> r.Failure?
    ensures r.Failure? ==> r.error == FetchFailure(ProductsFailureMessage)
    ensures r.Success? ==> |r.value| == |store.value|
    ensures r.Success? ==> forall i | 0 <= i < |r.value| :: Some(r.value[i]) == MapProduct(store.value[i])
  {
    ProductsResponse(store, ProductsFailureMessage)
  }

  /** The store's equality filter on the linked category's id. */
  function StoreQueryByCategory(items: seq<ProductEntry>, categoryId: string): (r: seq<ProductEntry>)
    ensures forall e | e in r :: e in items && e.fields.category.sys.id == categoryId
    ensures forall e | e in items && e.fields.category.sys.id == categoryId :: e in r
    ensures IsSubsequence(r, items)
  {
    if items == [] then []
    else
      var rest := StoreQueryByCategory(items[1..], categoryId);
      assert forall e | e in items && e != items[0] :: e in items[1..];
      if items[0].fields.category.sys.id == categoryId then [items[0]] + rest
      else
        assert rest == [] || rest[0] != items[0];
        rest
  }

  /** The store's filter commutes with concatenation: each kept entry stays
      where its neighbours put it, and repeated entries are kept as often. */
  lemma {:induction false} StoreQueryByCategoryAppend(a: seq<ProductEntry>, b: seq<ProductEntry>, categoryId: string)
    ensures StoreQueryByCategory(a + b, categoryId) == StoreQueryByCategory(a, categoryId) + StoreQueryByCategory(b, categoryId)
    decreases |a|
  {
    if a == [] {
      assert a + b == b;
    } else {
      assert (a + b)[1..] == a[1..] + b;
      StoreQueryByCategoryAppend(a[1..], b, categoryId);
    }
  }

  /** The listing of one category's products: the store filters, the service maps. */
  function GetProductsByCategory(categoryId: string, store: Result<seq<ProductEntry>, StoreError>): (r: Result<seq<Product>, FetchFailure>)
    ensures store.Failure? ==> r.Failure?
    ensures r.Failure? ==> r.error == FetchFailure(ProductsByCategoryFailureMessage)
    ensures r.Success? ==> forall p | p in r.value :: p.categoryId == categoryId
    ensures store.Success? ==>
              (r.Success? <==> forall e | e in store.value && e.fields.category.sys.id == categoryId ::
                                 !ImageLookupThrows(e.fields.image))
    ensures r.Success? ==>
              var filtered := StoreQueryByCategory(store.value, categoryId);
              |r.value| == |filtered| && forall i | 0 <= i < |filtered| :: Some(r.value[i]) == MapProduct(filtered[i])
  {
    match store
    case Failure(e) => ProductsResponse(Failure(e), ProductsByCategoryFailureMessage)
    case Success(items) =>
      var filtered := StoreQueryByCategory(items, categoryId);
      var r := ProductsResponse(Success(filtered), ProductsByCategoryFailureMessage);
      assert r.Success? <==> forall e | e in items && e.fields.category.sys.id == categoryId ::
                               !ImageLookupThrows(e.fields.image) by {
        if forall e | e in items && e.fields.category.sys.id == categoryId :: !ImageLookupThrows(e.fields.image) {
          forall i | 0 <= i < |filtered| ensures MapProduct(filtered[i]).Some? {
            assert filtered[i] in filtered;
          }
        } else {
          var e :| e in items && e.fields.category.sys.id == categoryId && ImageLookupThrows(e.fields.image);
          assert e in filtered;
          var i :| 0 <= i < |filtered| && filtered[i] == e;
          assert MapProduct(filtered[i]).None?;
        }
      }
      assert r.Success? ==> forall p | p in r.value :: p.categoryId == categoryId by {
        if r.Success? {
          forall p | p in r.value ensures p.categoryId == categoryId {
            var i :| 0 <= i < |r.value| && r.value[i] == p;
            assert filtered[i] in filtered;
          }
        }
      }
      r
  }

  // ---------------------------------------------------------------------
  // Properties of the product operations
  // ---------------------------------------------------------------------

  /** A whole product listing fails exactly when some entry has no image asset
      or an asset without `fields`; any other entry is mapped. */
  lemma GetProductsFailsOnBrokenImage(items: seq<ProductEntry>)
    ensures GetProducts(Success(items)).Failure? <==> exists e | e in items :: ImageLookupThrows(e.fields.image)
  {
  }

  /** A missing file or a non-string URL gives the empty string instead of failing. */
  lemma ImageDefaultsToEmpty(item: ProductEntry)
    requires item.fields.image.Some? && item.fields.image.value.fields.Some?
    requires var fields := item.fields.image.value.fields.value;
             fields.file.None? || fields.file.value.url.None? || fields.file.value.url.value.UrlNotString?
    ensures MapProduct(item).Some? && MapProduct(item).value.image == ""
  {
  }

  /** Mapping the store's filtered entries equals filtering the mapped listing. */
  lemma {:induction false} MapFilterCommute(items: seq<ProductEntry>, categoryId: string)
    requires MapProducts(items).Some?
    ensures MapProducts(StoreQueryByCategory(items, categoryId))
            == Some(ProductsInCategory(MapProducts(items).value, categoryId))
  {
    if items != [] {
      var ps := MapProducts(items).value;
      assert MapProducts(items[1..]).Some? by {
        forall i | 0 <= i < |items[1..]| ensures MapProduct(items[1..][i]).Some? {
          assert items[1..][i] == items[i + 1];
        }
      }
      MapFilterCommute(items[1..], categoryId);
      assert ps == [ps[0]] + MapProducts(items[1..]).value;
      assert ps[1..] == MapProducts(items[1..]).value;
      assert Some(ps[0]) == MapProduct(items[0]);
    }
  }

  /** Filter equivalence: whenever the full listing succeeds, the listing of one
      category is that listing restricted to the category, in the same order. */
  lemma ByCategoryIsFilteredListing(categoryId: string, store: Result<seq<ProductEntry>, StoreError>)
    requires GetProducts(store).Success?
    ensures GetProductsByCategory(categoryId, store) == Success(ProductsInCategory(GetProducts(store).value, categoryId))
  {
    MapFilterCommute(store.value, categoryId);
  }

  /** A category that no entry links to yields an empty list, not an error. */
  lemma UnmatchedCategoryIsEmpty(categoryId: string, items: seq<ProductEntry>)
    requires forall e | e in items :: e.fields.category.sys.id != categoryId
    ensures GetProductsByCategory(categoryId, Success(items)) == Success([])
  {
  }

  /** The equivalence does not run backwards: a broken image in one category
      fails the full listing while another category's listing still succeeds. */
  lemma ByCategoryMaySucceedWhenListingFails()
    ensures var doc := Document("");
            var good := ProductEntry(Sys("p1"), ProductFields("ISA", doc, EntryLink(Sys("c1")), Some(Asset(Some(AssetFields(None))))));
            var broken := ProductEntry(Sys("p2"), ProductFields("Pension", doc, EntryLink(Sys("c2")), None));
            var store: Result<seq<ProductEntry>, StoreError> := Success([good, broken]);
            && GetProducts(store) == Failure(FetchFailure(ProductsFailureMessage))
            && GetProductsByCategory("c1", store)
               == Success([Product("p1", "ISA", doc, "c1", "")])
  {
    var doc := Document("");
    var good := ProductEntry(Sys("p1"), ProductFields("ISA", doc, EntryLink(Sys("c1")), Some(Asset(Some(AssetFields(None))))));
    var broken := ProductEntry(Sys("p2"), ProductFields("Pension", doc, EntryLink(Sys("c2")), None));
    var items := [good, broken];
    assert items[1..] == [broken] && items[1..][1..] == [];
    assert MapProduct(broken).None?;
    assert StoreQueryByCategory([broken], "c1") == [];
    assert StoreQueryByCategory(items, "c1") == [good];
    assert [good][1..] == [];
    assert MapProduct(good) == Some(Product("p1", "ISA", doc, "c1", ""));
    assert MapProducts([]) == Some([]);
    assert [Product("p1", "ISA", doc, "c1", "")] + [] == [Product("p1", "ISA", doc, "c1", "")];
    assert MapProducts([good]) == Some([Product("p1", "ISA", doc, "c1", "")]);
  }

  /** Product links are passed through unchecked: a product whose category
      does not exist is still listed. */
  lemma DanglingCategoryIsPassedThrough(item: ProductEntry, categories: seq<Category>)
    requires !ImageLookupThrows(item.fields.image)
    requires forall c | c in categories :: c.id != item.fields.category.sys.id
    ensures GetProducts(Success([item])).Success?
    ensures var p := GetProducts(Success([item])).value[0];
            forall c | c in categories :: c.id != p.categoryId
  {
  }
}
