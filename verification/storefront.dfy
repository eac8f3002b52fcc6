/**
 * The product card (components/store/ProductCard.tsx) and its cart actions
 * (components/store/ProductCardActions.tsx): the sale rule, which price the
 * card shows, which badges it carries, and the handlers that turn clicks into
 * cart operations.
 */
module Storefront {
  import opened Wrappers
  import opened Cart

  /** A catalog product as the card receives it (prices already numbers). */
  datatype Product = Product(
    id: string,
    name: string,
    price: real,
    salePrice: Option<real>,
    unit: Unit,
    hasCuttingOptions: bool,
    cuttingStyles: Option<seq<string>>,
    image: Option<string>,
    inStock: bool,
    featured: bool)

  /** A JavaScript-truthy sale price: present and not zero. */
  predicate HasSalePrice(p: Product) {
    p.salePrice.Some? && p.salePrice.value != 0.0
  }

  /** ProductCard's `isOnSale`: a truthy sale price strictly below the list price. */
  predicate IsOnSale(p: Product) {
    HasSalePrice(p) && p.salePrice.value < p.price
  }

  /** ProductCardActions' `currentPrice`: the sale price when it is truthy and lower, else the list price. */
  function EffectivePrice(p: Product): (r: real)
    ensures r <= p.price
    ensures r == p.price || (p.salePrice.Some? && r == p.salePrice.value)
  {
    if p.salePrice.Some? && p.salePrice.value != 0.0 && p.salePrice.value < p.price
    then p.salePrice.value else p.price
  }

  /**
   * The two files compute the sale rule separately; they agree: the card is
   * on sale exactly when the cart action charges less than the list price,
   * and then it charges the sale price.
   */
  lemma SaleRuleAgrees(p: Product)
    ensures IsOnSale(p) <==> EffectivePrice(p) < p.price
    ensures IsOnSale(p) ==> EffectivePrice(p) == p.salePrice.value
    ensures !IsOnSale(p) ==> EffectivePrice(p) == p.price
  {
  }

  /** What the price row shows. */
  datatype PriceTag =
    | SaleTag(shown: real, struck: real)   // sale price, list price struck through
    | RegularTag(shown: real)              // list price only

  function PriceDisplay(p: Product): (t: PriceTag)
    ensures t.SaleTag? <==> IsOnSale(p)
    ensures t.shown == EffectivePrice(p)
    ensures t.SaleTag? ==> t.struck == p.price && t.shown < t.struck
    ensures t.RegularTag? ==> t.shown == p.price
  {
    if IsOnSale(p) then SaleTag(p.salePrice.value, p.price) else RegularTag(p.price)
  }

  datatype Badge = SaleBadge | FeaturedBadge | OutOfStockBadge

  /** The badges in the card corner, top to bottom. */
  function Badges(p: Product): (bs: seq<Badge>)
    ensures SaleBadge in bs <==> IsOnSale(p)
    ensures FeaturedBadge in bs <==> p.featured
    ensures OutOfStockBadge in bs <==> !p.inStock
  {
    (if IsOnSale(p) then [SaleBadge] else [])
    + (if p.featured then [FeaturedBadge] else [])
    + (if !p.inStock then [OutOfStockBadge] else [])
  }

  /** The unit label next to the price. */
  function CardUnitLabel(u: Unit): string {
    if u == KG then "ק\"ג" else "יחידה"
  }

  lemma CardUnitLabels()
    ensures CardUnitLabel(KG) == "ק\"ג" && CardUnitLabel(UNIT) == "יחידה"
    ensures CardUnitLabel(KG) != CardUnitLabel(UNIT)
  {
  }

  // ---------------------------------------------------------------- actions

  /** The cart together with the card's own `isModalOpen` flag. */
  datatype CardState = CardState(cart: seq<CartItem>, modalOpen: bool)

  /** The item the card hands to addItem for a given cutting style. */
  function CardItem(p: Product, style: Option<string>): (item: NewItem)
    ensures item.price == EffectivePrice(p) && item.originalPrice == p.price
    ensures item.price <= item.originalPrice
    ensures item.productId == p.id && item.cuttingStyle == style
  {
    NewItem(p.id, p.name, p.image, EffectivePrice(p), p.price, p.unit, style)
  }

  /** The first line of `cart` for this product with a null cutting style. */
  function FirstUncut(cart: seq<CartItem>, productId: string): (r: Option<CartItem>)
    ensures r.Some? ==> r.value in cart && r.value.productId == productId && r.value.cuttingStyle.None?
    ensures r.None? ==> forall x :: x in cart ==> !(x.productId == productId && x.cuttingStyle.None?)
  {
    if |cart| == 0 then None
    else if cart[0].productId == productId && cart[0].cuttingStyle.None? then Some(cart[0])
    else
      var r := FirstUncut(cart[1..], productId);
      assert forall x :: x in cart ==> x == cart[0] || x in cart[1..];
      r
  }

  /** `find` returns the earliest match: every line before it is of another product or carries a style. */
  lemma {:induction false} FirstUncutIsFirst(cart: seq<CartItem>, productId: string)
    ensures var r := FirstUncut(cart, productId);
      r.Some? ==> exists k :: (0 <= k < |cart| && cart[k] == r.value
        && forall j :: 0 <= j < k ==> !(cart[j].productId == productId && cart[j].cuttingStyle.None?))
  {
    if |cart| > 0 && !(cart[0].productId == productId && cart[0].cuttingStyle.None?) {
      var r := FirstUncut(cart[1..], productId);
      FirstUncutIsFirst(cart[1..], productId);
      if r.Some? {
        var k :| 0 <= k < |cart[1..]| && cart[1..][k] == r.value
          && forall j :: 0 <= j < k ==> !(cart[1..][j].productId == productId && cart[1..][j].cuttingStyle.None?);
        assert cart[k + 1] == r.value;
        forall j | 0 <= j < k + 1
          ensures !(cart[j].productId == productId && cart[j].cuttingStyle.None?)
        {
          if j > 0 {
            assert cart[j] == cart[1..][j - 1];
          }
        }
      }
    }
  }

  /** `cartItem`: the line the +/- stepper is bound to; only products without cutting options have one. */
  function BoundLine(cart: seq<CartItem>, p: Product): (r: Option<CartItem>)
    ensures r.Some? ==> !p.hasCuttingOptions && r.value in cart && r.value.productId == p.id && r.value.cuttingStyle.None?
    ensures r.None? ==> p.hasCuttingOptions || forall x :: x in cart ==> !(x.productId == p.id && x.cuttingStyle.None?)
  {
    if p.hasCuttingOptions then None else FirstUncut(cart, p.id)
  }

  /** The bound line is the earliest uncut line of the product. */
  lemma BoundLineIsFirst(cart: seq<CartItem>, p: Product)
    ensures var r := BoundLine(cart, p);
      r.Some? ==> exists k :: (0 <= k < |cart| && cart[k] == r.value
        && forall j :: 0 <= j < k ==> !(cart[j].productId == p.id && cart[j].cuttingStyle.None?))
  {
    FirstUncutIsFirst(cart, p.id);
  }

  /** The product offers a non-empty list of cutting styles, so adding goes through the modal. */
  predicate NeedsModal(p: Product) {
    p.hasCuttingOptions && p.cuttingStyles.Some? && |p.cuttingStyles.value| > 0
  }

  /** handleDirectAdd. */
  function DirectAdd(s: CardState, p: Product): (r: CardState)
    ensures !p.inStock ==> r == s
    ensures p.inStock && NeedsModal(p) ==> r == s.(modalOpen := true)
    ensures p.inStock && !NeedsModal(p) ==>
      r.modalOpen == s.modalOpen && r.cart == AddItem(s.cart, CardItem(p, None), 1)
  {
    if !p.inStock then s
    else if NeedsModal(p) then s.(modalOpen := true)
    else s.(cart := AddItem(s.cart, CardItem(p, None), 1))
  }

  /** handleModalAdd: the modal's style and quantity go to addItem unchanged, and the modal closes. */
  function ModalAdd(s: CardState, p: Product, style: string, quantity: int): (r: CardState)
    ensures !r.modalOpen
    ensures r.cart == AddItem(s.cart, CardItem(p, Some(style)), quantity)
  {
    CardState(AddItem(s.cart, CardItem(p, Some(style)), quantity), false)
  }

  /** handleIncrement. */
  function Increment(s: CardState, p: Product): (r: CardState)
    ensures r.modalOpen == s.modalOpen
    ensures BoundLine(s.cart, p).None? ==> r == s
    ensures |r.cart| <= |s.cart|
  {
    match BoundLine(s.cart, p)
    case None => s
    case Some(line) => s.(cart := UpdateQuantity(s.cart, line.id, line.quantity + 1))
  }

  /** handleDecrement: remove at quantity 1 or less, otherwise one unit fewer. */
  function Decrement(s: CardState, p: Product): (r: CardState)
    ensures r.modalOpen == s.modalOpen
    ensures BoundLine(s.cart, p).None? ==> r == s
    ensures |r.cart| <= |s.cart|
  {
    match BoundLine(s.cart, p)
    case None => s
    case Some(line) =>
      if line.quantity <= 1 then s.(cart := RemoveItem(s.cart, line.id))
      else s.(cart := UpdateQuantity(s.cart, line.id, line.quantity - 1))
  }

  /** With no bound line (a product with cutting options, or none in the cart) the stepper does nothing. */
  lemma UnboundStepperIsInert(s: CardState, p: Product)
    requires BoundLine(s.cart, p).None?
    ensures Increment(s, p) == s && Decrement(s, p) == s
  {
  }

  /**
   * On a cart with unique ids, + adds exactly one unit to the item count when
   * the line's quantity is not negative; from a negative quantity (addItem does
   * not reject one) updateQuantity sees a value below one and drops the line.
   */
  lemma IncrementAddsOne(s: CardState, p: Product)
    requires UniqueIds(s.cart) && BoundLine(s.cart, p).Some?
    ensures var line := BoundLine(s.cart, p).value;
      && (line.quantity >= 0 ==> ItemCount(Increment(s, p).cart) == ItemCount(s.cart) + 1.0)
      && (line.quantity < 0 ==> !HasLine(Increment(s, p).cart, line.id))
  {
    var line := BoundLine(s.cart, p).value;
    var k :| 0 <= k < |s.cart| && s.cart[k] == line;
    UpdateQuantityCount(s.cart, k, line.quantity + 1);
    if line.quantity < 0 {
      var r := RemoveItem(s.cart, line.id);
      RemoveItemKeeps(s.cart, line.id);
      forall j | 0 <= j < |r| ensures r[j].id != line.id {
        assert r[j] in r;
      }
    }
  }

  /** On a cart with unique ids, - drops the line at quantity one and otherwise takes exactly one unit off. */
  lemma DecrementRemovesOne(s: CardState, p: Product)
    requires UniqueIds(s.cart) && BoundLine(s.cart, p).Some?
    ensures var line := BoundLine(s.cart, p).value;
      && (line.quantity <= 1 ==> !HasLine(Decrement(s, p).cart, line.id))
      && (line.quantity > 1 ==> ItemCount(Decrement(s, p).cart) == ItemCount(s.cart) - 1.0)
  {
    var line := BoundLine(s.cart, p).value;
    var k :| 0 <= k < |s.cart| && s.cart[k] == line;
    if line.quantity > 1 {
      UpdateQuantityCount(s.cart, k, line.quantity - 1);
    } else {
      var r := RemoveItem(s.cart, line.id);
      RemoveItemKeeps(s.cart, line.id);
      forall j | 0 <= j < |r| ensures r[j].id != line.id {
        assert r[j] in r;
      }
    }
  }

  /** Decrement is exactly updateQuantity(id, q - 1): below one that is a removal. */
  lemma DecrementIsUpdate(s: CardState, p: Product)
    requires BoundLine(s.cart, p).Some?
    ensures var line := BoundLine(s.cart, p).value;
      Decrement(s, p).cart == UpdateQuantity(s.cart, line.id, line.quantity - 1)
  {
  }

  /** Every line the card adds, directly or through the modal, has price at most its list price. */
  lemma CardAddsKeepPricesCapped(s: CardState, p: Product, style: string, quantity: int)
    requires PricesCapped(s.cart)
    ensures PricesCapped(DirectAdd(s, p).cart)
    ensures PricesCapped(ModalAdd(s, p, style, quantity).cart)
  {
    if p.inStock && !NeedsModal(p) {
      ApplyPreservesCap(s.cart, CardItem(p, None), 1);
    }
    ApplyPreservesCap(s.cart, CardItem(p, Some(style)), quantity);
  }

  lemma ApplyPreservesCap(cart: seq<CartItem>, item: NewItem, quantity: int)
    requires PricesCapped(cart) && item.price <= item.originalPrice
    ensures PricesCapped(AddItem(cart, item, quantity))
  {
  }

  /** A line freshly added by the card is flagged on sale in the cart exactly when the card shows the sale badge. */
  lemma FreshLineSaleFlag(p: Product, style: Option<string>, quantity: int)
    ensures var line := NewLine(CardItem(p, style), quantity);
      line.originalPrice > line.price <==> IsOnSale(p)
  {
  }
}
