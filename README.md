# Product catalog: content normalisation, grouping and product query dispatch

This project is a Dafny model of the logic at the centre of a small product
catalog. A headless CMS stores *category* and *product* entries. An API
service turns them into two platform-neutral records, `Category` and
`Product`, and serves them over HTTP. A web view then groups the products
under their categories. The model covers four parts:

- **Domain records** (`Domain`, from `shared/types/index.ts`): `Category`
  (its `description` is optional) and `Product` (its `description` is always
  present, it names one category, and its `image` is a string that may be
  empty). The module also gives their JSON object shape and the one
  product-by-category selection that the rest of the model shares.
- **Content service** (`Contentful`, from `api/src/services/contentful.ts`):
  the CMS entry shapes (`sys`, `fields`, entry links, image assets whose
  `fields`, `file` and `url` may be missing), the per-item mappings, and the
  three listing operations. Each listing turns any failure into one error
  with a fixed message. The store is an input, not I/O: a listing receives
  either the store's entries or the store's error. The filtered product query
  is the store's equality filter on the linked category id, applied to the
  same entries.
- **Catalog grouping** (`ProductCatalog`, from
  `frontend/app/components/ProductCatalog.tsx`): each category is paired with
  its products and empty pairs are dropped. Each remaining category gets a
  slide, which shows one product flat with its title or several in an
  accordion.
- **Product route** (`ProductsRoute`, from `api/src/routes/products.ts`): the
  `categoryId` query value decides which listing runs. The service's list is
  returned unchanged, and a failure becomes a 500 body.

Where the code and the program's own evidence point different ways, the model follows the code:

- The test comment at `api/src/tests/services/contentful.test.ts:128` expects
  a missing image to give an empty string rather than a crash. The code
  defaults only a missing `file` or a non-string `url`. When the asset is
  missing, or the asset has no `fields`, `image.fields` at
  `api/src/services/contentful.ts:65` throws. The whole listing then fails
  with its fixed message. `GetProductsFailsOnBrokenImage` states this.
- Category order: the code only asks the store to sort by `fields.order`
  (`api/src/services/contentful.ts:38`). It never sorts the result itself.
  The ordering result (`GetCategoriesKeepsStoreOrder`) therefore assumes that
  the store sorted.
- Dangling categories: that every product's `categoryId` names an existing
  category is asserted only by a test against live data
  (`api/src/tests/integration.test.ts:183-188`). Nothing in the code checks
  it, so a dangling id passes through (`DanglingCategoryIsPassedThrough`).
  The catalog view then shows no such product (`OrphanProductIsHidden`).
- Filtering by category on the store, and filtering the full listing by
  `categoryId`, give the same products in the same order only when the full
  listing succeeds (`ByCategoryIsFilteredListing`). A broken image in another
  category fails the full listing but not the filtered one
  (`ByCategoryMaySucceedWhenListingFails`).

## Model

| member | source | states |
|---|---|---|
| `Domain.CategoryJson` | shared/types/index.ts:3-8 | a category's JSON has exactly the keys `id`, `name` and `order`, plus `description` only when one is present; it has none of `sys`, `fields` or `metadata` |
| `Domain.ProductJson` | shared/types/index.ts:10-16 | a product's JSON has exactly `id`, `name`, `description`, `categoryId` and `image`, and none of the CMS-native keys |
| `Domain.CategoryJsonRoundTrip` | shared/types/index.ts:3-8 | reading a category back from its JSON gives the same category, and an absent description stays absent |
| `Domain.ProductJsonRoundTrip` | shared/types/index.ts:10-16 | reading a product back from its JSON gives the same product |
| `Domain.ProductsInCategory` | frontend/app/components/ProductCatalog.tsx:44-46 | the result holds only products with the given `categoryId`, holds every such input product, and is a subsequence of the input, so input order is kept |
| `Domain.ProductsInCategoryAppend` | frontend/app/components/ProductCatalog.tsx:44-46 | selecting by category distributes over concatenation, so each product keeps its position relative to its neighbours |
| `Contentful.MapCategory` | api/src/services/contentful.ts:41-46 | `id` comes from the entry's `sys.id`; `name`, `description` and `order` come from its fields; an absent description stays absent |
| `Contentful.CategoryEntryFor` | api/src/services/contentful.ts:41-46 | every category is the mapping of some entry (the inverse direction) |
| `Contentful.MapCategoryLossless` | api/src/services/contentful.ts:41-46 | mapping then inverting gives back the entry, so the mapping adds and drops nothing |
| `Contentful.MapCategories` | api/src/services/contentful.ts:41 | the mapped list has the same length as the entries and maps each entry in place |
| `Contentful.GetCategories` | api/src/services/contentful.ts:34-51 | fails exactly when the store fails, always with "Failed to fetch categories"; on success keeps length and order, and each category is the mapping of the entry at its position (id, name, description and order) |
| `Contentful.GetCategoriesKeepsStoreOrder` | api/src/services/contentful.ts:36-46 | if the store returns entries ascending by `order`, the listing succeeds, is ascending by `order`, and never lists a smaller `order` after a larger one |
| `Contentful.GetCategoriesFromValidEntries` | api/migrations/2025-11-07T11-00-create-category-type.js:15-41 | entries that obey the content model (name of 1 to 100 characters, order at least 0) give categories that obey it too |
| `Contentful.ImageUrl` | api/src/services/contentful.ts:64-67 | the lookup throws exactly when there is no asset or it has no `fields`; otherwise it gives the file URL when that URL is a string, and `""` in every other case |
| `Contentful.MapProduct` | api/src/services/contentful.ts:63-76 | fails exactly when the image lookup throws; otherwise `id` is `sys.id`, name and description are copied, `categoryId` is the linked entry's `sys.id`, and `image` is the image URL |
| `Contentful.MapProducts` | api/src/services/contentful.ts:63 | succeeds exactly when every item maps; the result then has the same length and maps each item in place |
| `Contentful.ProductsResponse` | api/src/services/contentful.ts:63-80 | the shared mapping of both product listings: a store failure fails; a store answer succeeds exactly when every item maps, with the mapped list; any failure carries the operation's one fixed message |
| `Contentful.GetProducts` | api/src/services/contentful.ts:56-81 | a store failure is a failure; every failure is "Failed to fetch products"; on success the length is kept and each product is the mapping of the entry at its position (id, name, description, category id, image URL or default) |
| `Contentful.StoreQueryByCategory` | api/src/services/contentful.ts:88-92 | the store's filter keeps exactly the entries whose category link has the given id, as a subsequence of the entries, so in their order |
| `Contentful.StoreQueryByCategoryAppend` | api/src/services/contentful.ts:88-92 | the store's filter distributes over concatenation, so it keeps order and keeps repeated entries as often as they occur |
| `Contentful.GetProductsByCategory` | api/src/services/contentful.ts:86-112 | a store failure is a failure; every failure is "Failed to fetch products by category"; over a store answer it succeeds exactly when no entry linked to the category has a missing asset or asset `fields`, and then maps the store-filtered entries in place, so every product has the requested `categoryId` |
| `Contentful.GetProductsFailsOnBrokenImage` | api/src/services/contentful.ts:63-80 | a product listing over the store's entries fails exactly when some entry has no image asset or an asset without `fields` |
| `Contentful.ImageDefaultsToEmpty` | api/src/services/contentful.ts:65-67 | an asset with a missing file, a missing URL or a non-string URL maps to `image == ""` without failing |
| `Contentful.MapFilterCommute` | api/src/services/contentful.ts:88-107 | mapping the store-filtered entries gives the mapped entries restricted to the category, in order |
| `Contentful.ByCategoryIsFilteredListing` | api/src/services/contentful.ts:86-112 | whenever `GetProducts` succeeds, `GetProductsByCategory(c)` succeeds with exactly its products whose `categoryId` is `c`, in order |
| `Contentful.UnmatchedCategoryIsEmpty` | api/src/services/contentful.ts:88-107 | a category id that no entry links to gives an empty list, not an error |
| `Contentful.ByCategoryMaySucceedWhenListingFails` | api/src/services/contentful.ts:63-111 | with a broken image in category `c2`, the full listing fails while the listing for `c1` succeeds, so the equivalence holds in one direction only |
| `Contentful.DanglingCategoryIsPassedThrough` | api/src/services/contentful.ts:73 | a product whose linked category is not among the categories is still listed, with that dangling id |
| `ProductCatalog.PairWithProducts` | frontend/app/components/ProductCatalog.tsx:41-47 | one pair per category, in order, each holding exactly that category's products |
| `ProductCatalog.DropEmpty` | frontend/app/components/ProductCatalog.tsx:48 | the result is no longer than the input and every kept pair has at least one product |
| `ProductCatalog.DropEmptySelects` | frontend/app/components/ProductCatalog.tsx:48 | dropping keeps exactly the pairs with products, as a subsequence of the input, so in input order |
| `ProductCatalog.DropEmptyOfAllEmpty` | frontend/app/components/ProductCatalog.tsx:48 | when no pair has products, nothing is kept |
| `ProductCatalog.DropEmptyAppend` | frontend/app/components/ProductCatalog.tsx:48 | dropping empty pairs distributes over concatenation, so order is kept and repeated pairs are kept as often as they occur |
| `ProductCatalog.ShownCategories` | frontend/app/components/ProductCatalog.tsx:41-48 | pairing, dropping empty pairs and taking the categories gives the input categories that have products, occurrence by occurrence, in order |
| `ProductCatalog.GroupByCategory` | frontend/app/components/ProductCatalog.tsx:41-48 | every group is non-empty and holds exactly its category's products, in product order; the shown categories are exactly the input categories that have products, each occurrence kept, in input order |
| `ProductCatalog.CategoryShownIffItHasProducts` | frontend/app/components/ProductCatalog.tsx:41-48 | a listed category is shown if and only if some product names it |
| `ProductCatalog.OrphanProductIsHidden` | frontend/app/components/ProductCatalog.tsx:44-46 | a product whose `categoryId` matches no listed category appears in no group |
| `ProductCatalog.NoProductsNoGroups` | frontend/app/components/__tests__/ProductCatalog.test.tsx:165-174 | with no products, no group is shown |
| `ProductCatalog.ProductInExactlyOneGroup` | frontend/app/components/ProductCatalog.tsx:42-48 | when category ids are distinct, a product whose category is listed appears in exactly one group |
| `ProductCatalog.LayoutFor` | frontend/app/components/ProductCatalog.tsx:59-65 | the single-item layout is chosen exactly for one product and shows its title; either layout displays exactly the group's products |
| `ProductCatalog.CatalogSlides` | frontend/app/components/ProductCatalog.tsx:49-68 | one slide per group, in order, keyed by the category id, titled by its name, displaying the group's products |
| `ProductCatalog.SlidesChooseLayoutBySize` | frontend/app/components/ProductCatalog.tsx:49-65 | every slide displays its category's products; a single item shows its title; an accordion always holds two or more products |
| `ProductCatalog.CatalogTestGrouping` | frontend/app/components/__tests__/ProductCatalog.test.tsx:28-109 | on the catalog test's three categories and three products, "ISAs" gets its two products, "Pensions" its one, and "Empty Category" is left out |
| `ProductsRoute.Status` | api/src/routes/products.ts:17-24 | the list is sent with status 200, and an error body with status 500 |
| `ProductsRoute.CategoryFilter` | api/src/routes/products.ts:15 | a category is selected if and only if the query value is a non-empty string, and then it is that string unchanged |
| `ProductsRoute.ErrorResponse` | api/src/routes/products.ts:22-27 | the error body has `error` "Failed to fetch products", and `message` is the error's message, or "Unknown error" for a thrown value that is not an `Error` |
| `ProductsRoute.Respond` | api/src/routes/products.ts:17-27 | a successful list is returned unchanged; a failure becomes the error body carrying the service's message |
| `ProductsRoute.HandleGetProducts` | api/src/routes/products.ts:11-29 | a selected category goes to the by-category listing; anything else goes to the full listing |
| `ProductsRoute.FilteredFailureBody` | api/src/routes/products.ts:16-27 | a store failure on a filtered request gives status 500, `error` "Failed to fetch products" and `message` "Failed to fetch products by category" |
| `ProductsRoute.UnfilteredRequestsListAll` | api/src/routes/products.ts:15-20 | an absent, empty or non-string `categoryId` answers the same as no parameter: the full listing |
| `ProductsRoute.FilteredRequestMatchesFullListing` | api/src/routes/products.ts:15-17 | whenever the full listing succeeds, a filtered request answers exactly that listing's products of the category, in order |
| `ProductsRoute.FilteredRequestScenario` | api/src/routes/products.ts:15-17 | with one product in each of `c1` and `c2`, `categoryId=c1` answers only the `c1` product, image URL unchanged |

## Left out

- The CMS client built from environment variables, the real `getEntries` calls and `console.error` logging are left out. Store answers are inputs.
- The store's sort by `fields.order` is not modelled. Its sortedness is a precondition of `GetCategoriesKeepsStoreOrder`.
- The internals of rich-text documents are left out. `Document` is an opaque value.
- JSON is modelled only as each record's key set and its round trip. Key order, the encoding of strings and the encoding of documents are left out.
- A product entry's category link is always present, as the content model requires it. An entry without the link, which would also throw, is not modelled.
- The categories router, the app's middleware, CORS, the health, 404 and fallback handlers, and server start-up are left out. The categories router is a pass-through with a 500 fallback like the products route's.
- The React components other than the catalog grouping are left out: carousel, cards, lists, accordion internals, the `https:` prefix on images, and the page. The accordion's default open item is one of these.
- The frontend's fetch helpers and the API's stale duplicate type file are left out. The service does not use the type file.
- The two product queries are modelled as reading one complete snapshot of the store's product entries. Paging by the store's default page size and changes between the two calls are not modelled. `ByCategoryIsFilteredListing` and `FilteredRequestMatchesFullListing` depend on this.
- Concurrency and async suspension are left out (`Promise.all`, awaiting the store). Each operation is a function of its inputs.
