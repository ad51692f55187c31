/** The catalog view's composition: categories paired with their products,
    empty categories dropped, and one layout chosen per remaining category. */
module ProductCatalog {
  import opened Wrappers
  import opened Domain
  import opened Sequences

  /** A category together with the products that name it. */
  datatype Group = Group(category: Category, products: seq<Product>)

  /** Step one: every category with its products, empty or not. */
  function PairWithProducts(categories: seq<Category>, products: seq<Product>): (gs: seq<Group>)
    ensures |gs| == |categories|
    ensures forall i | 0 <= i < |gs| ::
              gs[i].category == categories[i] && gs[i].products == ProductsInCategory(products, categories[i].id)
  {
    seq(|categories|, i requires 0 <= i < |categories| =>
      Group(categories[i], ProductsInCategory(products, categories[i].id)))
  }

  /** Step two: keep the groups that have at least one product, in order. */
  function DropEmpty(gs: seq<Group>): (r: seq<Group>)
    ensures |r| <= |gs|
    ensures forall i | 0 <= i < |r| :: r[i].products != []
  {
    if gs == [] then []
    else (if gs[0].products != [] then [gs[0]] else []) + DropEmpty(gs[1..])
  }

  /** Dropping keeps exactly the groups with products, as a subsequence of the input. */
  lemma {:induction false} DropEmptySelects(gs: seq<Group>)
    ensures forall g | g in DropEmpty(gs) :: g in gs && g.products != []
    ensures forall g | g in gs && g.products != [] :: g in DropEmpty(gs)
    ensures IsSubsequence(DropEmpty(gs), gs)
    decreases |gs|
  {
    if gs != [] {
      DropEmptySelects(gs[1..]);
      var rest := DropEmpty(gs[1..]);
      assert forall g | g in gs && g != gs[0] :: g in gs[1..];
      if gs[0].products == [] {
        assert DropEmpty(gs) == rest;
        assert IsSubsequence(rest, gs[1..]);
      } else {
        assert DropEmpty(gs) == [gs[0]] + rest;
        assert (DropEmpty(gs))[1..] == rest;
      }
    }
  }

  /** When no group has products, nothing is kept. */
  lemma {:induction false} DropEmptyOfAllEmpty(gs: seq<Group>)
    requires forall g | g in gs :: g.products == []
    ensures DropEmpty(gs) == []
    decreases |gs|
  {
    if gs != [] {
      assert forall g | g in gs[1..] :: g in gs;
      DropEmptyOfAllEmpty(gs[1..]);
    }
  }

  /** Dropping empty groups commutes with concatenation: each kept group
      stays where its neighbours put it, and repeated groups are kept as often. */
  lemma {:induction false} DropEmptyAppend(a: seq<Group>, b: seq<Group>)
    ensures DropEmpty(a + b) == DropEmpty(a) + DropEmpty(b)
    decreases |a|
  {
    if a == [] {
      assert a + b == b;
    } else {
      assert (a + b)[1..] == a[1..] + b;
      DropEmptyAppend(a[1..], b);
    }
  }

  /** The categories shown, one per group. */
  function CategoriesOf(gs: seq<Group>): (cs: seq<Category>)
    ensures |cs| == |gs| && forall i | 0 <= i < |gs| :: cs[i] == gs[i].category
  {
    seq(|gs|, i requires 0 <= i < |gs| => gs[i].category)
  }

  /** Keeping some groups keeps the corresponding categories, in order. */
  lemma {:induction false} CategoriesOfSubsequence(xs: seq<Group>, ys: seq<Group>)
    requires IsSubsequence(xs, ys)
    ensures IsSubsequence(CategoriesOf(xs), CategoriesOf(ys))
    decreases |ys|
  {
    var cx, cy := CategoriesOf(xs), CategoriesOf(ys);
    if xs == [] {
    } else if xs[0] == ys[0] && IsSubsequence(xs[1..], ys[1..]) {
      CategoriesOfSubsequence(xs[1..], ys[1..]);
      assert CategoriesOf(xs[1..]) == cx[1..] && CategoriesOf(ys[1..]) == cy[1..];
    } else {
      CategoriesOfSubsequence(xs, ys[1..]);
      assert CategoriesOf(ys[1..]) == cy[1..];
    }
  }

  lemma CategoriesOfAppend(a: seq<Group>, b: seq<Group>)
    ensures CategoriesOf(a + b) == CategoriesOf(a) + CategoriesOf(b)
  {
    assert forall i | 0 <= i < |a + b| :: CategoriesOf(a + b)[i] == (CategoriesOf(a) + CategoriesOf(b))[i];
  }

  /** Reference definition: the input categories, each occurrence kept when
      at least one product names it, in input order. */
  function CategoriesWithProducts(categories: seq<Category>, products: seq<Product>): seq<Category>
  {
    if categories == [] then []
    else
      (if ProductsInCategory(products, categories[0].id) != [] then [categories[0]] else [])
      + CategoriesWithProducts(categories[1..], products)
  }

  /** Pairing, dropping and projecting the categories back out gives the reference selection. */
  lemma {:induction false} ShownCategories(categories: seq<Category>, products: seq<Product>)
    ensures CategoriesOf(DropEmpty(PairWithProducts(categories, products))) == CategoriesWithProducts(categories, products)
    decreases |categories|
  {
    if categories != [] {
      var all := PairWithProducts(categories, products);
      assert all[1..] == PairWithProducts(categories[1..], products);
      ShownCategories(categories[1..], products);
      var c := categories[0];
      var head := if all[0].products != [] then [all[0]] else [];
      var rest := DropEmpty(all[1..]);
      assert all[0] == Group(c, ProductsInCategory(products, c.id));
      assert DropEmpty(all) == head + rest;
      assert CategoriesOf(head) == if ProductsInCategory(products, c.id) != [] then [c] else [];
      assert CategoriesOf(rest) == CategoriesWithProducts(categories[1..], products);
      CategoriesOfAppend(head, rest);
    }
  }

  /** The grouping the catalog renders: each category with its products,
      categories without products left out. */
  function GroupByCategory(categories: seq<Category>, products: seq<Product>): (gs: seq<Group>)
    ensures forall g | g in gs :: g.category in categories
    ensures forall g | g in gs :: g.products != [] && g.products == ProductsInCategory(products, g.category.id)
    ensures forall c | c in categories && ProductsInCategory(products, c.id) != [] ::
              Group(c, ProductsInCategory(products, c.id)) in gs
    ensures IsSubsequence(CategoriesOf(gs), categories)
    ensures CategoriesOf(gs) == CategoriesWithProducts(categories, products)
  {
    var all := PairWithProducts(categories, products);
    var gs := DropEmpty(all);
    DropEmptySelects(all);
    assert forall g | g in all :: g.category in categories && g.products == ProductsInCategory(products, g.category.id);
    forall c | c in categories && ProductsInCategory(products, c.id) != []
      ensures Group(c, ProductsInCategory(products, c.id)) in all
    {
      var i :| 0 <= i < |categories| && categories[i] == c;
      assert all[i] == Group(c, ProductsInCategory(products, c.id));
    }
    CategoriesOfSubsequence(gs, all);
    ShownCategories(categories, products);
    assert CategoriesOf(all) == categories;
    gs
  }

  /** A category is shown exactly when at least one product names it. */
  lemma CategoryShownIffItHasProducts(categories: seq<Category>, products: seq<Product>, c: Category)
    requires c in categories
    ensures (exists g | g in GroupByCategory(categories, products) :: g.category == c)
            <==> exists p | p in products :: p.categoryId == c.id
  {
    var gs := GroupByCategory(categories, products);
    if exists p | p in products :: p.categoryId == c.id {
      var p :| p in products && p.categoryId == c.id;
      assert p in ProductsInCategory(products, c.id);
      assert Group(c, ProductsInCategory(products, c.id)) in gs;
    }
    if exists g | g in gs :: g.category == c {
      var g :| g in gs && g.category == c;
      assert g.products[0] in g.products;
    }
  }

  /** A product naming no listed category is in no group. */
  lemma OrphanProductIsHidden(categories: seq<Category>, products: seq<Product>, p: Product)
    requires forall c | c in categories :: c.id != p.categoryId
    ensures forall g | g in GroupByCategory(categories, products) :: p !in g.products
  {
  }

  /** With no products, nothing is shown. */
  lemma NoProductsNoGroups(categories: seq<Category>)
    ensures GroupByCategory(categories, []) == []
  {
    var all := PairWithProducts(categories, []);
    DropEmptyOfAllEmpty(all);
  }

  predicate DistinctIds(categories: seq<Category>)
  {
    forall i, j | 0 <= i < j < |categories| :: categories[i].id != categories[j].id
  }

  /** With distinct category ids, a product whose category is listed is shown
      in exactly one group. */
  lemma ProductInExactlyOneGroup(categories: seq<Category>, products: seq<Product>, p: Product)
    requires DistinctIds(categories)
    requires p in products
    requires exists c | c in categories :: c.id == p.categoryId
    ensures var gs := GroupByCategory(categories, products);
            exists k | 0 <= k < |gs| :: p in gs[k].products && forall j | 0 <= j < |gs| && j != k :: p !in gs[j].products
  {
    var gs := GroupByCategory(categories, products);
    var c :| c in categories && c.id == p.categoryId;
    assert p in ProductsInCategory(products, c.id);
    var g := Group(c, ProductsInCategory(products, c.id));
    assert g in gs;
    var k :| 0 <= k < |gs| && gs[k] == g;
    assert NoDuplicates(categories);
    SubsequenceKeepsNoDuplicates(CategoriesOf(gs), categories);
    forall j | 0 <= j < |gs| && j != k ensures p !in gs[j].products {
      assert gs[j] in gs;
      var d := gs[j].category;
      assert d != c by {
        assert CategoriesOf(gs)[j] != CategoriesOf(gs)[k];
      }
      var a :| 0 <= a < |categories| && categories[a] == d;
      var b :| 0 <= b < |categories| && categories[b] == c;
      assert a != b;
      assert d.id != p.categoryId;
    }
  }

  // ---------------------------------------------------------------------
  // Layout
  // ---------------------------------------------------------------------

  /** How a group's products are displayed: one product flat with its title,
      or a collapsible list. */
  datatype Layout = SingleItem(product: Product, showTitle: bool) | Accordion(items: seq<Product>)

  /** The products a layout displays, in display order. */
  function Displayed(layout: Layout): seq<Product>
  {
    match layout
    case SingleItem(p, _) => [p]
    case Accordion(items) => items
  }

  /** The layout choice on the number of products in a group. */
  function LayoutFor(products: seq<Product>): (layout: Layout)
    ensures layout.SingleItem? <==> |products| == 1
    ensures layout.SingleItem? ==> layout.showTitle
    ensures Displayed(layout) == products
  {
    if |products| == 1 then SingleItem(products[0], true) else Accordion(products)
  }

  /** One carousel slide: keyed by category id, titled by category name. */
  datatype Slide = Slide(key: string, title: string, layout: Layout)

  /** The slides the catalog renders. */
  function CatalogSlides(categories: seq<Category>, products: seq<Product>): (slides: seq<Slide>)
    ensures var gs := GroupByCategory(categories, products);
            && |slides| == |gs|
            && forall i | 0 <= i < |slides| ::
                 && slides[i].key == gs[i].category.id
                 && slides[i].title == gs[i].category.name
                 && Displayed(slides[i].layout) == gs[i].products
  {
    var gs := GroupByCategory(categories, products);
    seq(|gs|, i requires 0 <= i < |gs| => Slide(gs[i].category.id, gs[i].category.name, LayoutFor(gs[i].products)))
  }

  /** Every slide shows its category's products; one product is shown flat
      with its title, and an accordion always holds two or more. */
  lemma SlidesChooseLayoutBySize(categories: seq<Category>, products: seq<Product>)
    ensures var slides := CatalogSlides(categories, products);
            forall s | s in slides ::
              && Displayed(s.layout) == ProductsInCategory(products, s.key)
              && (s.layout.SingleItem? ==> s.layout.showTitle)
              && (s.layout.Accordion? ==> |s.layout.items| >= 2)
  {
  }

  // The catalog test's fixtures: three categories, the last without products.
  const TestIsas := Category("cat-1", "ISAs", None, 1)
  const TestPensions := Category("cat-2", "Pensions", None, 2)
  const TestEmpty := Category("cat-3", "Empty Category", None, 3)
  const TestIsa := Product("prod-1", "Stocks & Shares ISA", Document(""), "cat-1", "https://example.com/isa.jpg")
  const TestLisa := Product("prod-2", "Lifetime ISA", Document(""), "cat-1", "https://example.com/lisa.jpg")
  const TestPension := Product("prod-3", "Personal Pension", Document(""), "cat-2", "https://example.com/pension.jpg")
  const TestProducts := [TestIsa, TestLisa, TestPension]

  /** Each test category's products. */
  lemma TestSelections()
    ensures ProductsInCategory(TestProducts, "cat-1") == [TestIsa, TestLisa]
    ensures ProductsInCategory(TestProducts, "cat-2") == [TestPension]
    ensures ProductsInCategory(TestProducts, "cat-3") == []
  {
    var ps := TestProducts;
    assert ps[1..] == [TestLisa, TestPension] && ps[1..][1..] == [TestPension] && ps[1..][1..][1..] == [];
    assert ProductsInCategory([TestPension], "cat-1") == [];
    assert ProductsInCategory([TestLisa, TestPension], "cat-1") == [TestLisa];
    assert ProductsInCategory([TestPension], "cat-3") == [];
    assert ProductsInCategory([TestLisa, TestPension], "cat-3") == [];
  }

  const TestGroups := [Group(TestIsas, [TestIsa, TestLisa]), Group(TestPensions, [TestPension]), Group(TestEmpty, [])]

  /** Step one on the test's data: each category with its products. */
  lemma TestPairing()
    ensures PairWithProducts([TestIsas, TestPensions, TestEmpty], TestProducts) == TestGroups
  {
    TestSelections();
  }

  /** Step two on the test's data: the empty category is dropped. */
  lemma TestDropping()
    ensures DropEmpty(TestGroups) == TestGroups[..2]
  {
    var g1, g2, g3 := TestGroups[0], TestGroups[1], TestGroups[2];
    assert TestGroups == [g1] + [g2] + [g3];
    assert DropEmpty([g1]) == [g1] by { assert [g1][1..] == []; }
    assert DropEmpty([g2]) == [g2] by { assert [g2][1..] == []; }
    assert DropEmpty([g3]) == [] by { assert [g3][1..] == []; }
    DropEmptyAppend([g1] + [g2], [g3]);
    DropEmptyAppend([g1], [g2]);
  }

  /** The catalog test's data: "ISAs" shows its two products, "Pensions" its
      one, and the category without products is left out. */
  lemma CatalogTestGrouping()
    ensures GroupByCategory([TestIsas, TestPensions, TestEmpty], TestProducts)
            == [Group(TestIsas, [TestIsa, TestLisa]), Group(TestPensions, [TestPension])]
  {
    TestPairing();
    TestDropping();
  }



}
