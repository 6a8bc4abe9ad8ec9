/** The category admin screen: a list of categories, each holding its
    products, edited through a category form and a product form. Every
    handler is a pure update of the list; `confirm()` is the `confirmed`
    argument and `Date.now()` the `freshId` argument. */
module CategoryAdmin {
  import opened Options
  import opened Entities
  import opened Seqs
  import Slugs
  import MockStore

  datatype CategoryForm = CategoryForm(name: string, icon: string, slug: string)

  datatype ProductForm = ProductForm(
    name: string,
    company: string,
    description: string,
    minQuantity: int,
    price: Hundredths,
    categoryId: int)

  const BlankCategoryForm: CategoryForm := CategoryForm("", "", "")

  /** `categoryId` 0 is the "Selecione uma categoria" placeholder option. */
  const BlankProductForm: ProductForm := ProductForm("", "", "", 1, 0, 0)

  /** The screen's state. `editingCategory`/`editingProduct` hold the record
      as it was when its edit button was pressed. */
  datatype Screen = Screen(
    categories: seq<Category>,
    categoryForm: CategoryForm,
    productForm: ProductForm,
    editingCategory: Option<Category>,
    editingProduct: Option<Product>,
    showCategoryForm: bool,
    showProductForm: bool)

  /** The screen's initial list. Its stored counts are display figures, not
      the length of the product lists. */
  const Seed: seq<Category> := [
    Category(1, "Equipamentos Industriais", 437, "🏭", "equipamentos-industriais", [MockStore.Compressor]),
    Category(2, "Matérias-Primas", 294, "⚡", "materias-primas", []),
    Category(3, "Ferramentas", 183, "🔧", "ferramentas", []),
    Category(4, "Componentes Eletrônicos", 256, "💻", "componentes-eletronicos", []),
    Category(5, "Embalagens", 165, "📦", "embalagens", []),
    Category(6, "Segurança Industrial", 92, "🛡️", "seguranca-industrial", [])
  ]

  const Initial: Screen :=
    Screen(Seed, BlankCategoryForm, BlankProductForm, None, None, false, false)

  /** Every category's stored count agrees with its product list. */
  predicate CountsMatch(cats: seq<Category>) {
    forall i :: 0 <= i < |cats| ==> CountMatches(cats[i])
  }

  /** `count == products.length` is not an invariant of the screen: the
      seed already breaks it. */
  lemma SeedBreaksCountInvariant()
    ensures !CountsMatch(Seed)
  {
    assert Seed[0].count == 437 && |Seed[0].products| == 1;
  }

  /** No two categories share an id. */
  predicate UniqueIds(cats: seq<Category>) {
    forall i, j :: 0 <= i < j < |cats| ==> cats[i].id != cats[j].id
  }

  /** The slug stored on submit: the slug field when it is non-empty,
      otherwise the name lower-cased with each whitespace run replaced by '-'. */
  function StoredSlug(form: CategoryForm): (r: string)
    ensures form.slug != "" ==> r == form.slug
    ensures form.slug == "" ==> r == Slugs.Slugify(form.name)
  {
    if form.slug != "" then form.slug else Slugs.Slugify(form.name)
  }

  /** The record `handleCategorySubmit` builds from the form. */
  function NewCategory(form: CategoryForm, editing: Option<Category>, freshId: int): Category {
    match editing
    case Some(e) => Category(e.id, form.name, e.count, form.icon, StoredSlug(form), e.products)
    case None => Category(freshId, form.name, 0, form.icon, StoredSlug(form), [])
  }

  /** `handleCategorySubmit` on the list. Adding appends one category with
      count 0 and no products. Editing replaces every entry whose id is the
      edited category's id, keeping that id, count and product list (as
      they were when editing began) and taking name, icon and slug from the
      form; all other entries and the order are unchanged. */
  function SubmitCategory(cats: seq<Category>, form: CategoryForm, editing: Option<Category>, freshId: int)
    : (r: seq<Category>)
    ensures editing.None? ==> |r| == |cats| + 1 && r[..|cats|] == cats
    ensures editing.None? ==>
      r[|cats|] == Category(freshId, form.name, 0, form.icon, StoredSlug(form), [])
    ensures editing.Some? ==> |r| == |cats|
    ensures editing.Some? ==> forall i :: 0 <= i < |cats| && cats[i].id != editing.value.id ==> r[i] == cats[i]
    ensures editing.Some? ==> forall i :: 0 <= i < |cats| && cats[i].id == editing.value.id ==>
      && r[i].id == editing.value.id && r[i].count == editing.value.count
      && r[i].products == editing.value.products
      && r[i].name == form.name && r[i].icon == form.icon && r[i].slug == StoredSlug(form)
  {
    var c := NewCategory(form, editing, freshId);
    match editing
    case Some(e) => Replace(cats, (x: Category) => x.id == e.id, c)
    case None => cats + [c]
  }

  /** The record `handleProductSubmit` builds from the form. */
  function NewProduct(form: ProductForm, editing: Option<Product>, freshId: int): Product {
    Product(if editing.Some? then editing.value.id else freshId,
      form.name, form.company, form.description, form.minQuantity, form.price, form.categoryId)
  }

  /** The product list of the targeted category after a product submit:
      appended when adding, replaced by id when editing. */
  function UpdatedProducts(ps: seq<Product>, p: Product, editing: Option<Product>): seq<Product> {
    match editing
    case Some(e) => Replace(ps, (q: Product) => q.id == e.id, p)
    case None => ps + [p]
  }

  /** `handleProductSubmit` on the list. Only categories whose id is the
      form's `categoryId` change, and each of those gets count = number of
      products. Adding appends the new product; editing replaces only
      products of that category with the edited product's id. */
  function SubmitProduct(cats: seq<Category>, form: ProductForm, editing: Option<Product>, freshId: int)
    : (r: seq<Category>)
    ensures |r| == |cats|
    ensures forall i :: 0 <= i < |cats| && cats[i].id != form.categoryId ==> r[i] == cats[i]
    ensures forall i :: 0 <= i < |cats| && cats[i].id == form.categoryId ==>
      && r[i] == cats[i].(products := r[i].products, count := r[i].count)
      && CountMatches(r[i])
    ensures editing.None? ==> forall i :: 0 <= i < |cats| && cats[i].id == form.categoryId ==>
      r[i].products == cats[i].products + [NewProduct(form, editing, freshId)]
    ensures editing.Some? ==> forall i :: 0 <= i < |cats| && cats[i].id == form.categoryId ==>
      && |r[i].products| == |cats[i].products|
      && forall j :: 0 <= j < |cats[i].products| ==>
        r[i].products[j] == (if cats[i].products[j].id == editing.value.id
                             then NewProduct(form, editing, freshId) else cats[i].products[j])
  {
    var p := NewProduct(form, editing, freshId);
    seq(|cats|, i requires 0 <= i < |cats| =>
      if cats[i].id == form.categoryId then
        var ps := UpdatedProducts(cats[i].products, p, editing);
        cats[i].(products := ps, count := |ps|)
      else cats[i])
  }

  /** `handleDeleteCategory`: when confirmed, every category with the id is
      removed and the rest keep their order; when declined nothing changes. */
  function DeleteCategory(cats: seq<Category>, id: int, confirmed: bool): (r: seq<Category>)
    ensures !confirmed ==> r == cats
    ensures confirmed ==> forall i :: 0 <= i < |r| ==> r[i].id != id && r[i] in cats
    ensures confirmed ==> forall i :: 0 <= i < |cats| && cats[i].id != id ==> cats[i] in r
    ensures confirmed ==> forall c :: multiset(r)[c] == if c.id != id then multiset(cats)[c] else 0
    ensures IsSubsequence(r, cats)
  {
    if confirmed then
      var keep := (c: Category) => c.id != id;
      FilterIsSubsequence(cats, keep);
      FilterMultiset(cats, keep);
      Filter(cats, keep)
    else
      SubsequenceRefl(cats);
      cats
  }

  /** `handleDeleteProduct`: when confirmed, the named category loses every
      product with the id and its count becomes its new number of products;
      other categories are unchanged. When declined nothing changes. */
  function DeleteProduct(cats: seq<Category>, categoryId: int, productId: int, confirmed: bool)
    : (r: seq<Category>)
    ensures !confirmed ==> r == cats
    ensures |r| == |cats|
    ensures forall i :: 0 <= i < |cats| && (!confirmed || cats[i].id != categoryId) ==> r[i] == cats[i]
    ensures confirmed ==> forall i :: 0 <= i < |cats| && cats[i].id == categoryId ==>
      && r[i] == cats[i].(products := r[i].products, count := r[i].count)
      && CountMatches(r[i])
      && (forall j :: 0 <= j < |r[i].products| ==> r[i].products[j].id != productId)
      && IsSubsequence(r[i].products, cats[i].products)
      && (forall j :: 0 <= j < |cats[i].products| && cats[i].products[j].id != productId ==>
            cats[i].products[j] in r[i].products)
      && (forall p :: multiset(r[i].products)[p] ==
            if p.id != productId then multiset(cats[i].products)[p] else 0)
  {
    if !confirmed then cats
    else
      seq(|cats|, i requires 0 <= i < |cats| =>
        if cats[i].id == categoryId then WithoutProduct(cats[i], productId) else cats[i])
  }

  /** One category after its product `productId` is deleted. */
  function WithoutProduct(c: Category, productId: int): (r: Category)
    ensures r == c.(products := r.products, count := r.count) && CountMatches(r)
    ensures forall j :: 0 <= j < |r.products| ==> r.products[j].id != productId
    ensures IsSubsequence(r.products, c.products)
    ensures forall j :: 0 <= j < |c.products| && c.products[j].id != productId ==> c.products[j] in r.products
    ensures forall p :: multiset(r.products)[p] == if p.id != productId then multiset(c.products)[p] else 0
  {
    var keep := (p: Product) => p.id != productId;
    FilterIsSubsequence(c.products, keep);
    FilterMultiset(c.products, keep);
    var ps := Filter(c.products, keep);
    c.(products := ps, count := |ps|)
  }

  /** A product submit whose `categoryId` names no category (the placeholder
      0, say) leaves the list as it was. */
  lemma SubmitProductWithoutTarget(cats: seq<Category>, form: ProductForm, editing: Option<Product>, freshId: int)
    requires forall i :: 0 <= i < |cats| ==> cats[i].id != form.categoryId
    ensures SubmitProduct(cats, form, editing, freshId) == cats
  {
  }

  /** Editing a product while choosing another category in the form does not
      move it: its old category (any category other than the target) is
      untouched, and a target that has no product with that id gets the same
      products back. */
  lemma EditIntoOtherCategory(cats: seq<Category>, form: ProductForm, e: Product, freshId: int)
    requires form.categoryId != e.categoryId
    ensures var r := SubmitProduct(cats, form, Some(e), freshId);
      && (forall i :: 0 <= i < |cats| && cats[i].id == e.categoryId ==> r[i] == cats[i])
      && (forall i :: 0 <= i < |cats| && cats[i].id == form.categoryId
            && (forall j :: 0 <= j < |cats[i].products| ==> cats[i].products[j].id != e.id)
            ==> r[i].products == cats[i].products)
  {
    var r := SubmitProduct(cats, form, Some(e), freshId);
    forall i | 0 <= i < |cats| && cats[i].id == form.categoryId
        && (forall j :: 0 <= j < |cats[i].products| ==> cats[i].products[j].id != e.id)
      ensures r[i].products == cats[i].products
    {
      assert |r[i].products| == |cats[i].products|;
    }
  }

  /** Every handler keeps `count == products.length` for all categories once
      it holds: an added category has no products and count 0, an edited one
      keeps its count and products together, and product handlers recompute
      the count. */
  lemma HandlersKeepCountsMatching(cats: seq<Category>, cform: CategoryForm, pform: ProductForm,
                                   ec: Option<Category>, ep: Option<Product>, freshId: int,
                                   id: int, productId: int, confirmed: bool)
    requires CountsMatch(cats)
    requires ec.Some? ==> CountMatches(ec.value)
    ensures CountsMatch(SubmitCategory(cats, cform, ec, freshId))
    ensures CountsMatch(SubmitProduct(cats, pform, ep, freshId))
    ensures CountsMatch(DeleteCategory(cats, id, confirmed))
    ensures CountsMatch(DeleteProduct(cats, id, productId, confirmed))
  {
    var d := DeleteCategory(cats, id, confirmed);
    forall i | 0 <= i < |d|
      ensures CountMatches(d[i])
    {
      assert d[i] in cats;
    }
  }

  /** Adding a category with a fresh id and then deleting that id gives back
      the original list. */
  lemma AddThenDeleteCategory(cats: seq<Category>, form: CategoryForm, freshId: int)
    requires forall i :: 0 <= i < |cats| ==> cats[i].id != freshId
    ensures DeleteCategory(SubmitCategory(cats, form, None, freshId), freshId, true) == cats
  {
    var added := SubmitCategory(cats, form, None, freshId);
    assert added == cats + [added[|cats|]];
    var keep := (c: Category) => c.id != freshId;
    FilterAppend(cats, [added[|cats|]], keep);
    FilterAll(cats, keep);
  }

  /** Adding a product with a fresh id and then deleting it from the same
      category gives back every product list; the only trace left is that
      the target's count now equals its number of products. */
  lemma AddThenDeleteProduct(cats: seq<Category>, form: ProductForm, freshId: int)
    requires forall i, j :: 0 <= i < |cats| && cats[i].id == form.categoryId && 0 <= j < |cats[i].products| ==>
               cats[i].products[j].id != freshId
    ensures var r := DeleteProduct(SubmitProduct(cats, form, None, freshId), form.categoryId, freshId, true);
      && |r| == |cats|
      && (forall i :: 0 <= i < |cats| ==> r[i].products == cats[i].products)
      && (CountsMatch(cats) ==> r == cats)
  {
    var added := SubmitProduct(cats, form, None, freshId);
    var r := DeleteProduct(added, form.categoryId, freshId, true);
    var keep := (p: Product) => p.id != freshId;
    forall i | 0 <= i < |cats|
      ensures r[i].products == cats[i].products
    {
      if cats[i].id == form.categoryId {
        var p := NewProduct(form, None, freshId);
        assert added[i].products == cats[i].products + [p];
        FilterAppend(cats[i].products, [p], keep);
        FilterAll(cats[i].products, keep);
        assert Filter([p], keep) == [];
      }
    }
    if CountsMatch(cats) {
      forall i | 0 <= i < |cats|
        ensures r[i] == cats[i]
      {
      }
    }
  }

  /** `resetCategoryForm`: blank form, no edit target, form hidden. */
  function ResetCategoryForm(s: Screen): (r: Screen)
    ensures r.categoryForm == BlankCategoryForm && r.editingCategory.None? && !r.showCategoryForm
    ensures r.categories == s.categories && r.productForm == s.productForm
    ensures r.editingProduct == s.editingProduct && r.showProductForm == s.showProductForm
  {
    s.(categoryForm := BlankCategoryForm, editingCategory := None, showCategoryForm := false)
  }

  /** `resetProductForm`: blank form (minimum quantity 1, price 0, the
      placeholder category 0), no edit target, form hidden. */
  function ResetProductForm(s: Screen): (r: Screen)
    ensures r.productForm == BlankProductForm && r.editingProduct.None? && !r.showProductForm
    ensures r.categories == s.categories && r.categoryForm == s.categoryForm
    ensures r.editingCategory == s.editingCategory && r.showCategoryForm == s.showCategoryForm
  {
    s.(productForm := BlankProductForm, editingProduct := None, showProductForm := false)
  }

  /** The category edit button: remember the category and load its name,
      icon and slug into the form. */
  function StartEditCategory(s: Screen, c: Category): (r: Screen)
    ensures r.editingCategory == Some(c) && r.showCategoryForm
    ensures r.categoryForm == CategoryForm(c.name, c.icon, c.slug)
    ensures r.categories == s.categories
  {
    s.(editingCategory := Some(c), categoryForm := CategoryForm(c.name, c.icon, c.slug), showCategoryForm := true)
  }

  /** The product edit button: remember the product and load all its fields,
      including its own category, into the form. */
  function StartEditProduct(s: Screen, p: Product): (r: Screen)
    ensures r.editingProduct == Some(p) && r.showProductForm
    ensures NewProduct(r.productForm, Some(p), 0) == p
    ensures r.categories == s.categories
  {
    s.(editingProduct := Some(p),
       productForm := ProductForm(p.name, p.company, p.description, p.minQuantity, p.price, p.categoryId),
       showProductForm := true)
  }

  /** Submitting the category form, then resetting it. */
  function OnCategorySubmit(s: Screen, freshId: int): (r: Screen)
    ensures r.categories == SubmitCategory(s.categories, s.categoryForm, s.editingCategory, freshId)
    ensures r.categoryForm == BlankCategoryForm && r.editingCategory.None? && !r.showCategoryForm
    ensures r.productForm == s.productForm && r.editingProduct == s.editingProduct
  {
    ResetCategoryForm(s.(categories := SubmitCategory(s.categories, s.categoryForm, s.editingCategory, freshId)))
  }

  /** Submitting the product form, then resetting it. */
  function OnProductSubmit(s: Screen, freshId: int): (r: Screen)
    ensures r.categories == SubmitProduct(s.categories, s.productForm, s.editingProduct, freshId)
    ensures r.productForm == BlankProductForm && r.editingProduct.None? && !r.showProductForm
    ensures r.categoryForm == s.categoryForm && r.editingCategory == s.editingCategory
  {
    ResetProductForm(s.(categories := SubmitProduct(s.categories, s.productForm, s.editingProduct, freshId)))
  }

  /** Opening a listed category for editing and submitting the form as
      loaded changes nothing in the list, when ids are unique and the
      category has a slug. */
  lemma EditUnchangedIsIdentity(s: Screen, k: nat, freshId: int)
    requires k < |s.categories| && UniqueIds(s.categories) && s.categories[k].slug != ""
    ensures OnCategorySubmit(StartEditCategory(s, s.categories[k]), freshId).categories == s.categories
  {
    var c := s.categories[k];
    var r := SubmitCategory(s.categories, CategoryForm(c.name, c.icon, c.slug), Some(c), freshId);
    forall i | 0 <= i < |s.categories|
      ensures r[i] == s.categories[i]
    {
      if s.categories[i].id == c.id {
        assert i == k;
      }
    }
  }
}
