/**
 * The new-product form of the admin area (app/admin/products/new/page.tsx):
 * the cutting-style checkboxes, the default category once the list is
 * loaded, and the JSON payload built on submit.
 */
module ProductForm {
  import opened Wrappers
  import opened Seqs
  import Cart
  import AdminCreate

  /** The five styles the form offers (value, label). */
  const CuttingStyleOptions: seq<(string, string)> := [
    ("WHOLE", "שלם"),
    ("SLICED", "פרוסות"),
    ("FILLET_SKIN", "פילה עם עור"),
    ("FILLET_SKINLESS", "פילה בלי עור"),
    ("BUTTERFLIED", "פתוח")
  ]

  /** The form state; number inputs are kept as the text typed. */
  datatype FormData = FormData(
    categoryId: string,
    name: string,
    description: string,
    price: string,
    salePrice: string,
    image: string,
    inStock: bool,
    unit: Cart.Unit,
    hasCuttingOptions: bool,
    cuttingStyles: seq<string>,
    featured: bool,
    order: int,
    isActive: bool)

  const InitialForm := FormData("", "", "", "", "", "", true, Cart.KG, false, [], false, 0, true)

  // ------------------------------------------------------------ style checkboxes

  /** `handleCuttingStyleToggle`: a checked style is removed everywhere, an unchecked one appended. */
  function Toggle(styles: seq<string>, style: string): (r: seq<string>)
    ensures style in r <==> style !in styles
    ensures forall x :: x != style ==> (x in r <==> x in styles)
    ensures style !in styles ==> r == styles + [style]
    ensures NoDuplicates(styles) ==> NoDuplicates(r)
  {
    if style in styles then
      WithoutKeepsDistinctIf(styles, style);
      Without(styles, style)
    else
      DistinctSnocIf(styles, style);
      styles + [style]
  }

  lemma WithoutKeepsDistinctIf(styles: seq<string>, style: string)
    ensures NoDuplicates(styles) ==> NoDuplicates(Without(styles, style))
  {
    if NoDuplicates(styles) {
      WithoutKeepsDistinct(styles, style);
    }
  }

  lemma DistinctSnocIf(styles: seq<string>, style: string)
    requires style !in styles
    ensures NoDuplicates(styles) ==> NoDuplicates(styles + [style])
  {
    if NoDuplicates(styles) {
      DistinctSnoc(styles, style);
    }
  }

  /** Ticking an unchecked style and unticking it again gives back the same list. */
  lemma ToggleTwiceRestores(styles: seq<string>, style: string)
    requires style !in styles
    ensures Toggle(Toggle(styles, style), style) == styles
  {
    WithoutConcat(styles, [style], style);
    WithoutAbsent(styles, style);
    assert Without([style], style) == [] + Without([], style);
  }

  /** Unticking a checked style and ticking it again moves it to the end. */
  lemma ToggleTwiceMovesToEnd(styles: seq<string>, style: string)
    requires style in styles
    ensures Toggle(Toggle(styles, style), style) == Without(styles, style) + [style]
  {
  }

  /** From the initial empty list, any clicks on the checkboxes keep the list duplicate-free. */
  function ToggleAll(styles: seq<string>, clicks: seq<string>): seq<string>
    decreases |clicks|
  {
    if |clicks| == 0 then styles else ToggleAll(Toggle(styles, clicks[0]), clicks[1..])
  }

  lemma {:induction false} ToggleAllDistinct(styles: seq<string>, clicks: seq<string>)
    requires NoDuplicates(styles)
    ensures NoDuplicates(ToggleAll(styles, clicks))
    decreases |clicks|
  {
    if |clicks| > 0 {
      ToggleAllDistinct(Toggle(styles, clicks[0]), clicks[1..]);
    }
  }

  // ------------------------------------------------------------ default category

  datatype Category = Category(id: string, name: string)

  /** Once the categories arrive, the first one is preselected; an empty list leaves the form alone. */
  function CategoriesLoaded(form: FormData, categories: seq<Category>): (r: FormData)
    ensures |categories| > 0 ==> r == form.(categoryId := categories[0].id)
    ensures |categories| == 0 ==> r == form
  {
    if |categories| > 0 then form.(categoryId := categories[0].id) else form
  }

  // ------------------------------------------------------------ submit

  /** The body sent to the create endpoint; `None` numbers go out as `null` (`NaN` serialises so). */
  datatype Payload = Payload(
    categoryId: string,
    name: string,
    description: string,
    price: Option<real>,
    salePrice: Option<real>,
    image: string,
    inStock: bool,
    unit: Cart.Unit,
    hasCuttingOptions: bool,
    cuttingStyles: seq<string>,
    featured: bool,
    order: int,
    isActive: bool)

  /**
   * `handleSubmit`'s body. `parseFloat` is a parameter: it gives `None` for
   * text that is not a number.
   */
  function Submit(form: FormData, parseFloat: string -> Option<real>): (p: Payload)
    ensures p.price == parseFloat(form.price)
    ensures form.salePrice == "" ==> p.salePrice.None?
    ensures form.salePrice != "" ==> p.salePrice == parseFloat(form.salePrice)
    ensures !form.hasCuttingOptions ==> p.cuttingStyles == []
    ensures form.hasCuttingOptions ==> p.cuttingStyles == form.cuttingStyles
    ensures && p.categoryId == form.categoryId && p.name == form.name && p.description == form.description
            && p.image == form.image && p.inStock == form.inStock && p.unit == form.unit
            && p.hasCuttingOptions == form.hasCuttingOptions && p.featured == form.featured
            && p.order == form.order && p.isActive == form.isActive
  {
    Payload(
      form.categoryId, form.name, form.description,
      parseFloat(form.price),
      if form.salePrice != "" then parseFloat(form.salePrice) else None,
      form.image, form.inStock, form.unit, form.hasCuttingOptions,
      if form.hasCuttingOptions then form.cuttingStyles else [],
      form.featured, form.order, form.isActive)
  }

  // ------------------------------------------------------------ what the endpoint receives

  /** The unit as the JSON body spells it. */
  function UnitName(u: Cart.Unit): string {
    match u
    case KG => "KG"
    case UNIT => "UNIT"
  }

  /**
   * The payload after `JSON.stringify` on the client and `request.json()` on
   * the server: every key is present, and a price that is not a number
   * (`NaN`) arrives as `null`.
   */
  function Received(p: Payload): AdminCreate.ProductBody {
    AdminCreate.ProductBody(
      Some(p.categoryId), Some(p.name), Some(p.description),
      if p.price.Some? then AdminCreate.Number(p.price.value) else AdminCreate.Null,
      p.salePrice, Some(p.image), Some(p.inStock), Some(UnitName(p.unit)),
      Some(p.hasCuttingOptions), Some(p.cuttingStyles), Some(p.featured), Some(p.order), Some(p.isActive))
  }

  /**
   * A form submitted once the categories arrived passes the endpoint's
   * required-field check as soon as a name was typed, whatever the price
   * text: an unreadable price is sent as `null`, which the check lets
   * through. The stored row takes the first category and keeps no cutting
   * styles unless the product offers cutting.
   */
  lemma SubmittedFormIsAccepted(form: FormData, categories: seq<Category>, parseFloat: string -> Option<real>, slug: string)
    requires |categories| > 0 && categories[0].id != "" && form.name != ""
    ensures !AdminCreate.ProductFieldsMissing(Received(Submit(CategoriesLoaded(form, categories), parseFloat)))
    ensures var row := AdminCreate.ProductRowOf(Received(Submit(CategoriesLoaded(form, categories), parseFloat)), slug);
      && row.categoryId == categories[0].id
      && row.name == form.name
      && (row.price == AdminCreate.Null <==> parseFloat(form.price).None?)
      && row.hasCuttingOptions == form.hasCuttingOptions
      && (!form.hasCuttingOptions ==> row.cuttingStyles == [])
      && (form.hasCuttingOptions ==> row.cuttingStyles == form.cuttingStyles)
      && row.unit == UnitName(form.unit)
      && row.inStock == form.inStock && row.featured == form.featured && row.isActive == form.isActive
  {
    var loaded := CategoriesLoaded(form, categories);
    var b := Received(Submit(loaded, parseFloat));
    assert loaded.categoryId == categories[0].id && loaded.name == form.name;
    assert b.categoryId == Some(categories[0].id) && b.name == Some(form.name);
  }
}
