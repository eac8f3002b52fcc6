/**
 * The two create endpoints of the admin area: POST of
 * app/api/admin/products/route.ts and of app/api/admin/categories/route.ts.
 * The database is abstracted to what the checks look at: the set of category
 * ids, and the slugs already used by products and by categories.
 */
module AdminCreate {
  import opened Wrappers
  import opened Seqs
  import opened Fields
  import Slug

  // ------------------------------------------------------------ JSON values

  /** The `price` field: `undefined` is told apart from `null`. */
  datatype PriceField = Undefined | Null | Number(value: real)

  // ------------------------------------------------------------ products

  datatype ProductBody = ProductBody(
    categoryId: Option<string>,
    name: Option<string>,
    description: Option<string>,
    price: PriceField,
    salePrice: Option<real>,
    image: Option<string>,
    inStock: Option<bool>,
    unit: Option<string>,
    hasCuttingOptions: Option<bool>,
    cuttingStyles: Option<seq<string>>,
    featured: Option<bool>,
    order: Option<int>,
    isActive: Option<bool>)

  /** The row handed to the database. */
  datatype ProductRow = ProductRow(
    categoryId: string,
    name: string,
    slug: string,
    description: Option<string>,
    price: PriceField,
    salePrice: Option<real>,
    image: Option<string>,
    inStock: bool,
    unit: string,
    hasCuttingOptions: bool,
    cuttingStyles: seq<string>,
    featured: bool,
    order: int,
    isActive: bool)

  /** What the checks consult: existing category ids and the product slugs in order of creation. */
  datatype Store = Store(categoryIds: set<string>, productSlugs: seq<string>, categorySlugs: seq<string>)

  datatype CreateError = Unauthorized | MissingFields | UnknownCategory | DuplicateSlug

  /** `!categoryId || !name || price === undefined`: a null or zero price passes. */
  predicate ProductFieldsMissing(b: ProductBody) {
    !Truthy(b.categoryId) || !Truthy(b.name) || b.price.Undefined?
  }

  /** `salePrice || null`: a zero sale price is dropped. */
  function SalePriceOrNull(salePrice: Option<real>): (r: Option<real>)
    ensures r.None? <==> salePrice.None? || salePrice.value == 0.0
    ensures r.Some? ==> r == salePrice
  {
    if salePrice.Some? && salePrice.value != 0.0 then salePrice else None
  }

  /** The defaults filled in for a product that passed the checks. */
  function ProductRowOf(b: ProductBody, slug: string): (row: ProductRow)
    requires !ProductFieldsMissing(b)
    ensures row.categoryId == b.categoryId.value && row.name == b.name.value && row.slug == slug
    ensures row.description == OrNull(b.description) && row.image == OrNull(b.image)
    ensures row.price == b.price && row.salePrice == SalePriceOrNull(b.salePrice)
    ensures row.unit == (if Truthy(b.unit) then b.unit.value else "KG")
    ensures row.cuttingStyles == (if b.cuttingStyles.Some? then b.cuttingStyles.value else [])
    ensures row.inStock == (b.inStock != Some(false))
    ensures row.hasCuttingOptions == (b.hasCuttingOptions == Some(true))
    ensures row.featured == (b.featured == Some(true))
    ensures row.isActive == (b.isActive != Some(false))
    ensures row.order == (if b.order.Some? then b.order.value else 0)
  {
    ProductRow(
      b.categoryId.value, b.name.value, slug,
      OrNull(b.description), b.price, SalePriceOrNull(b.salePrice), OrNull(b.image),
      b.inStock.GetOr(true),
      if Truthy(b.unit) then b.unit.value else "KG",
      b.hasCuttingOptions.GetOr(false),
      b.cuttingStyles.GetOr([]),
      b.featured.GetOr(false),
      b.order.GetOr(0),
      b.isActive.GetOr(true))
  }

  /**
   * The POST handler: 401, then the required fields, then the category, then
   * the slug of the name; a created product's slug is new and is recorded.
   */
  function CreateProduct(authenticated: bool, b: ProductBody, store: Store): (r: Result)
    ensures r.Failure? <==>
      !authenticated || ProductFieldsMissing(b) || b.categoryId.value !in store.categoryIds
      || Slug.Slugify(b.name.value) in store.productSlugs
    ensures r == Failure(Unauthorized) <==> !authenticated
    ensures r == Failure(MissingFields) <==> authenticated && ProductFieldsMissing(b)
    ensures r == Failure(UnknownCategory) <==>
      authenticated && !ProductFieldsMissing(b) && b.categoryId.value !in store.categoryIds
    ensures r == Failure(DuplicateSlug) <==>
      && authenticated && !ProductFieldsMissing(b) && b.categoryId.value in store.categoryIds
      && Slug.Slugify(b.name.value) in store.productSlugs
    ensures r.ProductCreated? ==>
      && r.row == ProductRowOf(b, Slug.Slugify(b.name.value))
      && r.row.slug !in store.productSlugs
      && r.store == store.(productSlugs := store.productSlugs + [r.row.slug])
  {
    if !authenticated then Failure(Unauthorized)
    else if ProductFieldsMissing(b) then Failure(MissingFields)
    else if b.categoryId.value !in store.categoryIds then Failure(UnknownCategory)
    else
      var slug := Slug.Slugify(b.name.value);
      if slug in store.productSlugs then Failure(DuplicateSlug)
      else ProductCreated(ProductRowOf(b, slug), store.(productSlugs := store.productSlugs + [slug]))
  }

  // ------------------------------------------------------------ categories

  datatype CategoryBody = CategoryBody(name: Option<string>, image: Option<string>, order: Option<int>, isActive: Option<bool>)

  datatype CategoryRow = CategoryRow(name: string, slug: string, image: Option<string>, order: int, isActive: bool)

  datatype Result =
    | Failure(error: CreateError)
    | ProductCreated(row: ProductRow, store: Store)
    | CategoryCreated(category: CategoryRow, store: Store)

  /** The POST handler for categories: 401, then a falsy name, then the slug. */
  function CreateCategory(authenticated: bool, b: CategoryBody, store: Store): (r: Result)
    ensures r == Failure(Unauthorized) <==> !authenticated
    ensures r == Failure(MissingFields) <==> authenticated && !Truthy(b.name)
    ensures r == Failure(DuplicateSlug) <==>
      authenticated && Truthy(b.name) && Slug.Slugify(b.name.value) in store.categorySlugs
    ensures r.Failure? ==> r.error != UnknownCategory
    ensures !r.Failure? ==> r.CategoryCreated?
    ensures r.CategoryCreated? ==>
      && r.category == CategoryRow(b.name.value, Slug.Slugify(b.name.value), OrNull(b.image),
                                   b.order.GetOr(0), b.isActive.GetOr(true))
      && r.category.slug !in store.categorySlugs
      && r.store == store.(categorySlugs := store.categorySlugs + [r.category.slug])
  {
    if !authenticated then Failure(Unauthorized)
    else if !Truthy(b.name) then Failure(MissingFields)
    else
      var slug := Slug.Slugify(b.name.value);
      if slug in store.categorySlugs then Failure(DuplicateSlug)
      else CategoryCreated(
        CategoryRow(b.name.value, slug, OrNull(b.image), b.order.GetOr(0), b.isActive.GetOr(true)),
        store.(categorySlugs := store.categorySlugs + [slug]))
  }

  // ------------------------------------------------------------ slugs stay unique

  /** One request to either endpoint. */
  datatype Request = NewProduct(product: ProductBody) | NewCategory(category: CategoryBody)

  function Serve(authenticated: bool, req: Request, store: Store): (r: Result) {
    match req
    case NewProduct(b) => CreateProduct(authenticated, b, store)
    case NewCategory(b) => CreateCategory(authenticated, b, store)
  }

  /** The store after a run of requests: a failure leaves it as it was. */
  function ServeAll(authenticated: bool, reqs: seq<Request>, store: Store): Store
    decreases |reqs|
  {
    if |reqs| == 0 then store
    else
      var r := Serve(authenticated, reqs[0], store);
      ServeAll(authenticated, reqs[1..], if r.Failure? then store else r.store)
  }

  predicate SlugsUnique(store: Store) {
    NoDuplicates(store.productSlugs) && NoDuplicates(store.categorySlugs)
  }

  /** One request never records a slug twice. */
  lemma ServeKeepsSlugsUnique(authenticated: bool, req: Request, store: Store)
    requires SlugsUnique(store)
    ensures var r := Serve(authenticated, req, store);
      !r.Failure? ==> SlugsUnique(r.store)
  {
    var r := Serve(authenticated, req, store);
    if r.ProductCreated? {
      DistinctSnoc(store.productSlugs, r.row.slug);
    } else if r.CategoryCreated? {
      DistinctSnoc(store.categorySlugs, r.category.slug);
    }
  }

  /** Whatever is posted, product slugs stay pairwise distinct and so do category slugs. */
  lemma {:induction false} ServeAllKeepsSlugsUnique(authenticated: bool, reqs: seq<Request>, store: Store)
    requires SlugsUnique(store)
    ensures SlugsUnique(ServeAll(authenticated, reqs, store))
    decreases |reqs|
  {
    if |reqs| > 0 {
      ServeKeepsSlugsUnique(authenticated, reqs[0], store);
      var r := Serve(authenticated, reqs[0], store);
      ServeAllKeepsSlugsUnique(authenticated, reqs[1..], if r.Failure? then store else r.store);
    }
  }

  /**
   * Two names without a letter, digit or Hebrew character both have the empty
   * slug, so once one product has such a name, the next one is refused.
   */
  lemma SymbolNamesCollide(first: ProductBody, second: ProductBody, store: Store)
    requires !ProductFieldsMissing(first) && !ProductFieldsMissing(second)
    requires first.categoryId.value in store.categoryIds && second.categoryId.value in store.categoryIds
    requires forall i :: 0 <= i < |first.name.value| ==> !Slug.IsContent(first.name.value[i])
    requires forall i :: 0 <= i < |second.name.value| ==> !Slug.IsContent(second.name.value[i])
    requires "" !in store.productSlugs
    ensures CreateProduct(true, first, store).ProductCreated?
    ensures CreateProduct(true, second, CreateProduct(true, first, store).store) == Failure(DuplicateSlug)
  {
    Slug.SlugEmptyIff(first.name.value);
    Slug.SlugEmptyIff(second.name.value);
  }
}
