/**
 * What the cart shows and which cart operation each button runs: one cart
 * line (components/store/CartItem.tsx) and the slide-out drawer
 * (components/store/CartDrawer.tsx) with its free-delivery banner.
 */
module CartView {
  import opened Wrappers
  import opened Cart
  import CuttingStyles
  import Storefront

  // ------------------------------------------------------------ one line

  /** The cart line's unit label (shorter than the product card's). */
  function LineUnitLabel(u: Unit): string {
    if u == KG then "ק\"ג" else "יח'"
  }

  /** A line is shown on sale when its list price is above the price charged. */
  predicate LineOnSale(x: CartItem) {
    x.originalPrice > x.price
  }

  /** What one cart line displays. */
  datatype LineView = LineView(
    shownPrice: real,
    struckPrice: Option<real>,   // list price, struck through, only when on sale
    unitLabel: string,
    styleLabel: Option<string>,  // no style row for a null or empty style
    quantity: int,
    lineTotal: real)

  function ViewLine(x: CartItem): (v: LineView)
    ensures v.shownPrice == x.price && v.quantity == x.quantity
    ensures v.struckPrice.Some? <==> LineOnSale(x)
    ensures v.struckPrice.Some? ==> v.struckPrice.value == x.originalPrice && v.shownPrice < v.struckPrice.value
    ensures v.lineTotal == LineTotal(x)
    ensures v.styleLabel.None? <==> x.cuttingStyle.None? || x.cuttingStyle.value == ""
    ensures v.styleLabel.Some? ==> v.styleLabel.value == CuttingStyles.Label(CuttingStyles.CartLabels, x.cuttingStyle.value)
  {
    LineView(
      x.price,
      if LineOnSale(x) then Some(x.originalPrice) else None,
      LineUnitLabel(x.unit),
      if x.cuttingStyle.Some? && x.cuttingStyle.value != ""
      then Some(CuttingStyles.Label(CuttingStyles.CartLabels, x.cuttingStyle.value)) else None,
      x.quantity,
      LineTotal(x))
  }

  /** The line totals shown add up to the subtotal. */
  lemma {:induction false} LineTotalsAddUp(cart: seq<CartItem>)
    ensures Sum(cart, x => ViewLine(x).lineTotal) == Subtotal(cart)
  {
    if |cart| > 0 {
      LineTotalsAddUp(cart[..|cart| - 1]);
    }
  }

  /** The minus button. */
  function Minus(cart: seq<CartItem>, x: CartItem): seq<CartItem> {
    UpdateQuantity(cart, x.id, x.quantity - 1)
  }

  /** The plus button. */
  function Plus(cart: seq<CartItem>, x: CartItem): seq<CartItem> {
    UpdateQuantity(cart, x.id, x.quantity + 1)
  }

  /** The trash button. */
  function Trash(cart: seq<CartItem>, x: CartItem): seq<CartItem> {
    RemoveItem(cart, x.id)
  }

  /**
   * The line buttons on a cart with unique ids: minus at quantity one removes
   * the line, just like trash; otherwise minus and plus change that line's
   * quantity by one and leave every other line alone.
   */
  lemma LineButtons(cart: seq<CartItem>, k: nat)
    requires UniqueIds(cart) && k < |cart|
    ensures cart[k].quantity == 1 ==> Minus(cart, cart[k]) == Trash(cart, cart[k])
    ensures cart[k].quantity >= 0 ==> Plus(cart, cart[k]) == cart[k := cart[k].(quantity := cart[k].quantity + 1)]
    ensures cart[k].quantity >= 2 ==> Minus(cart, cart[k]) == cart[k := cart[k].(quantity := cart[k].quantity - 1)]
    ensures Trash(cart, cart[k]) == cart[..k] + cart[k + 1..]
  {
    RemoveUniqueShape(cart, k);
    if cart[k].quantity >= 0 {
      PlusRaises(cart, k);
    }
    if cart[k].quantity >= 2 {
      MinusLowers(cart, k);
    }
  }

  lemma PlusRaises(cart: seq<CartItem>, k: nat)
    requires UniqueIds(cart) && k < |cart| && cart[k].quantity >= 0
    ensures Plus(cart, cart[k]) == cart[k := cart[k].(quantity := cart[k].quantity + 1)]
  {
    UpdateUniqueShape(cart, k, cart[k].quantity + 1);
  }

  lemma MinusLowers(cart: seq<CartItem>, k: nat)
    requires UniqueIds(cart) && k < |cart| && cart[k].quantity >= 2
    ensures Minus(cart, cart[k]) == cart[k := cart[k].(quantity := cart[k].quantity - 1)]
  {
    UpdateUniqueShape(cart, k, cart[k].quantity - 1);
  }

  /** The minus button on a line is the product card's minus for the same line. */
  lemma MinusMatchesCard(s: Storefront.CardState, p: Storefront.Product)
    requires Storefront.BoundLine(s.cart, p).Some?
    ensures Minus(s.cart, Storefront.BoundLine(s.cart, p).value) == Storefront.Decrement(s, p).cart
    ensures Plus(s.cart, Storefront.BoundLine(s.cart, p).value) == Storefront.Increment(s, p).cart
  {
    Storefront.DecrementIsUpdate(s, p);
  }

  // ------------------------------------------------------------ the drawer

  /** The fee row of the summary. */
  datatype FeeLabel = FreeLabel | FeeAmount(amount: real)

  function ViewFee(fee: real): (l: FeeLabel)
    ensures l.FreeLabel? <==> fee == 0.0
    ensures l.FeeAmount? ==> l.amount == fee
  {
    if fee == 0.0 then FreeLabel else FeeAmount(fee)
  }

  /** The banner: how much is missing and how full the progress bar is (percent). */
  datatype Banner = Banner(missing: real, width: real)

  /** The drawer body: the empty state, or lines with an optional banner and a summary. */
  datatype DrawerBody =
    | EmptyState
    | Filled(banner: Option<Banner>, lines: seq<LineView>, subtotal: real, fee: FeeLabel, total: real)

  datatype DrawerView = DrawerView(countBadge: Option<real>, body: DrawerBody)

  /** `amountForFreeDelivery`. */
  function MissingForFree(subtotal: real): real {
    FreeDeliveryThreshold - subtotal
  }

  /** The bar width: `min(subtotal / 200 * 100, 100)`. */
  function ProgressWidth(subtotal: real): (w: real)
    ensures w <= 100.0
    ensures subtotal >= 0.0 ==> 0.0 <= w
    ensures w == 100.0 <==> subtotal >= FreeDeliveryThreshold
    ensures subtotal < FreeDeliveryThreshold ==> w == subtotal / 2.0
  {
    var pct := subtotal / FreeDeliveryThreshold * 100.0;
    if pct < 100.0 then pct else 100.0
  }

  function ViewDrawer(cart: seq<CartItem>): (v: DrawerView)
    ensures v.countBadge.Some? <==> ItemCount(cart) > 0.0
    ensures v.countBadge.Some? ==> v.countBadge.value == ItemCount(cart)
    ensures v.body.EmptyState? <==> |cart| == 0
    ensures v.body.Filled? ==> |v.body.lines| == |cart|
    ensures v.body.Filled? ==> forall j :: 0 <= j < |cart| ==> v.body.lines[j] == ViewLine(cart[j])
    ensures v.body.Filled? ==> v.body.subtotal == Subtotal(cart) && v.body.total == Total(cart)
    ensures v.body.Filled? ==> v.body.fee == ViewFee(DeliveryFee(cart))
  {
    var badge := if ItemCount(cart) > 0.0 then Some(ItemCount(cart)) else None;
    if |cart| == 0 then DrawerView(badge, EmptyState)
    else
      var sub := Subtotal(cart);
      var missing := MissingForFree(sub);
      var banner := if missing > 0.0 then Some(Banner(missing, ProgressWidth(sub))) else None;
      DrawerView(badge, Filled(banner, seq(|cart|, j requires 0 <= j < |cart| => ViewLine(cart[j])), sub, ViewFee(DeliveryFee(cart)), Total(cart)))
  }

  /**
   * For a non-empty cart the banner shows exactly when delivery is charged;
   * the amount it names is what the subtotal lacks, strictly positive, and
   * adding it would make delivery free; the bar is then below full.
   */
  lemma BannerMatchesFee(cart: seq<CartItem>)
    requires |cart| > 0
    ensures var b := ViewDrawer(cart).body.banner;
      && (b.Some? <==> DeliveryFee(cart) == FlatDeliveryFee)
      && (b.Some? <==> ViewDrawer(cart).body.fee.FeeAmount?)
      && (b.Some? ==> b.value.missing > 0.0
                      && Subtotal(cart) + b.value.missing == FreeDeliveryThreshold
                      && Fee(Subtotal(cart) + b.value.missing) == 0.0
                      && b.value.width < 100.0)
  {
  }

  /** On a cart whose quantities are positive and prices non-negative the bar lies in [0, 100]. */
  lemma {:induction false} ProgressInRange(cart: seq<CartItem>)
    requires forall j :: 0 <= j < |cart| ==> cart[j].quantity >= 1 && cart[j].price >= 0.0
    ensures Subtotal(cart) >= 0.0
    ensures 0.0 <= ProgressWidth(Subtotal(cart)) <= 100.0
  {
    if |cart| > 0 {
      ProgressInRange(cart[..|cart| - 1]);
      var x := cart[|cart| - 1];
      assert x.price * x.quantity as real >= 0.0;
    }
  }

  /** The empty cart shows the empty state: no count badge, no banner, no totals. */
  lemma EmptyDrawer()
    ensures ViewDrawer([]) == DrawerView(None, EmptyState)
  {
  }
}
