/**
 * The client-side cart engine of contexts/CartContext.tsx: an ordered list of
 * line items, the four mutations add / remove / update-quantity / clear (each a
 * pure reducer from the old list to the new one), the derived totals, and the
 * best-effort restore from browser storage.
 */
module Cart {
  import opened Wrappers
  import opened Text

  datatype Unit = KG | UNIT

  /** One line of the cart. `price` is the unit price frozen when the line was first added. */
  datatype CartItem = CartItem(
    id: string,
    productId: string,
    name: string,
    image: Option<string>,
    price: real,
    originalPrice: real,
    quantity: int,
    unit: Unit,
    cuttingStyle: Option<string>)

  /** What a caller hands to addItem: a CartItem without `id` and `quantity`. */
  datatype NewItem = NewItem(
    productId: string,
    name: string,
    image: Option<string>,
    price: real,
    originalPrice: real,
    unit: Unit,
    cuttingStyle: Option<string>)

  const FreeDeliveryThreshold: real := 200.0
  const FlatDeliveryFee: real := 30.0

  // ---------------------------------------------------------------- line ids

  /** The `cuttingStyle || 'none'` half of a line id: null and "" both read as "none". */
  function StyleKey(style: Option<string>): (k: string)
    ensures k == "none" <==> style == None || style == Some("") || style == Some("none")
    ensures style.Some? && style.value != "" ==> k == style.value
  {
    match style
    case None => "none"
    case Some(s) => if s == "" then "none" else s
  }

  /** generateCartItemId: product id, a hyphen, then the style key. */
  function LineId(productId: string, style: Option<string>): string {
    productId + "-" + StyleKey(style)
  }

  /** Where the parts of an id sit: the product id, the hyphen after it, then the style key. */
  lemma LineIdShape(productId: string, style: Option<string>)
    ensures var id := LineId(productId, style);
      && |id| == |productId| + 1 + |StyleKey(style)|
      && StartsWith(id, productId) && id[|productId|] == '-'
      && id[|productId| + 1..] == StyleKey(style)
  {
  }

  /** A style for which the id keeps the style apart from every other style. */
  predicate DistinctStyle(style: Option<string>) {
    style.None? || (style.value != "" && style.value != "none")
  }

  /**
   * Ids separate (product, style) pairs exactly when product ids carry no
   * hyphen and no style is "" or the literal "none".
   */
  lemma {:induction false} LineIdInjective(p1: string, s1: Option<string>, p2: string, s2: Option<string>)
    requires '-' !in p1 && '-' !in p2
    requires DistinctStyle(s1) && DistinctStyle(s2)
    ensures LineId(p1, s1) == LineId(p2, s2) <==> p1 == p2 && s1 == s2
  {
    var id1, id2 := LineId(p1, s1), LineId(p2, s2);
    LineIdShape(p1, s1);
    LineIdShape(p2, s2);
    if id1 == id2 {
      assert |p1| == |p2|;
      assert p1 == id1[..|p1|] == id2[..|p2|] == p2;
      assert StyleKey(s1) == id1[|p1| + 1..] == id2[|p2| + 1..] == StyleKey(s2);
    }
  }

  /** Without those conditions ids collide: null, "" and "none" share an id, and so can hyphenated product ids. */
  lemma LineIdCollisions()
    ensures LineId("a", None) == LineId("a", Some("none")) == LineId("a", Some(""))
    ensures LineId("a-b", None) == LineId("a", Some("b-none"))
  {
    assert LineId("a-b", None) == "a-b-none";
    assert LineId("a", Some("b-none")) == "a-b-none";
  }

  // ---------------------------------------------------------------- lookup

  predicate HasLine(cart: seq<CartItem>, id: string) {
    exists k :: 0 <= k < |cart| && cart[k].id == id
  }

  /** No two lines share an id. */
  predicate UniqueIds(cart: seq<CartItem>) {
    forall i, j :: 0 <= i < j < |cart| ==> cart[i].id != cart[j].id
  }

  function FindFrom(cart: seq<CartItem>, id: string, from: nat): (k: Option<nat>)
    requires from <= |cart|
    ensures k.Some? ==> (from <= k.value < |cart| && cart[k.value].id == id
                         && forall j :: from <= j < k.value ==> cart[j].id != id)
    ensures k.None? ==> forall j :: from <= j < |cart| ==> cart[j].id != id
    decreases |cart| - from
  {
    if from == |cart| then None
    else if cart[from].id == id then Some(from)
    else FindFrom(cart, id, from + 1)
  }

  /** `findIndex(item => item.id === id)`: the first line with that id. */
  function FindIndex(cart: seq<CartItem>, id: string): (k: Option<nat>)
    ensures k.Some? ==> (k.value < |cart| && cart[k.value].id == id
                         && forall j :: 0 <= j < k.value ==> cart[j].id != id)
    ensures k.None? <==> !HasLine(cart, id)
  {
    FindFrom(cart, id, 0)
  }

  // ---------------------------------------------------------------- mutations

  /** The line addItem appends for an id not yet in the cart. */
  function NewLine(item: NewItem, quantity: int): CartItem {
    CartItem(LineId(item.productId, item.cuttingStyle), item.productId, item.name, item.image,
             item.price, item.originalPrice, quantity, item.unit, item.cuttingStyle)
  }

  /**
   * addItem: merge into the first line with the derived id (only its quantity
   * grows), or append a new line. The quantity is not checked.
   */
  function AddItem(cart: seq<CartItem>, item: NewItem, quantity: int): (r: seq<CartItem>)
    ensures var id := LineId(item.productId, item.cuttingStyle);
      match FindIndex(cart, id)
      case Some(k) =>
        && |r| == |cart|
        && r[k].quantity == cart[k].quantity + quantity
        && r[k].(quantity := cart[k].quantity) == cart[k]
        && forall j :: 0 <= j < |cart| && j != k ==> r[j] == cart[j]
      case None =>
        && |r| == |cart| + 1
        && r[..|cart|] == cart
        && r[|cart|] == NewLine(item, quantity)
  {
    var id := LineId(item.productId, item.cuttingStyle);
    match FindIndex(cart, id)
    case Some(k) => cart[k := cart[k].(quantity := cart[k].quantity + quantity)]
    case None => cart + [NewLine(item, quantity)]
  }

  /** removeItem: `filter(item => item.id !== id)`. */
  function RemoveItem(cart: seq<CartItem>, id: string): (r: seq<CartItem>)
    ensures |r| <= |cart|
    ensures !HasLine(cart, id) ==> r == cart
  {
    if |cart| == 0 then []
    else
      var rest := RemoveItem(cart[1..], id);
      if cart[0].id == id then rest else [cart[0]] + rest
  }

  /** removeItem keeps exactly the lines whose id differs. */
  lemma {:induction false} RemoveItemKeeps(cart: seq<CartItem>, id: string)
    ensures forall x :: x in RemoveItem(cart, id) <==> x in cart && x.id != id
  {
    if |cart| > 0 {
      RemoveItemKeeps(cart[1..], id);
      assert forall x :: x in cart <==> x == cart[0] || x in cart[1..];
    }
  }

  /** The line list with every line of that id set to `quantity`. */
  function SetQuantity(cart: seq<CartItem>, id: string, quantity: int): (r: seq<CartItem>)
    ensures |r| == |cart|
    ensures forall j :: 0 <= j < |cart| ==> r[j].(quantity := cart[j].quantity) == cart[j]
    ensures forall j :: 0 <= j < |cart| ==> r[j].quantity == if cart[j].id == id then quantity else cart[j].quantity
  {
    seq(|cart|, j requires 0 <= j < |cart| => if cart[j].id == id then cart[j].(quantity := quantity) else cart[j])
  }

  /** updateQuantity: a quantity below 1 removes the line; otherwise only its quantity changes. */
  function UpdateQuantity(cart: seq<CartItem>, id: string, quantity: int): (r: seq<CartItem>)
    ensures quantity < 1 ==> r == RemoveItem(cart, id)
    ensures quantity >= 1 ==> |r| == |cart|
    ensures quantity >= 1 ==> forall j :: 0 <= j < |cart| && cart[j].id != id ==> r[j] == cart[j]
    ensures quantity >= 1 ==> forall j :: 0 <= j < |cart| && cart[j].id == id ==>
      r[j].quantity == quantity && r[j].(quantity := cart[j].quantity) == cart[j]
    ensures !HasLine(cart, id) ==> r == cart
  {
    if quantity < 1 then RemoveItem(cart, id) else SetQuantity(cart, id, quantity)
  }

  /** clearCart. */
  function ClearCart(cart: seq<CartItem>): (r: seq<CartItem>)
    ensures |r| == 0
  {
    []
  }

  // ---------------------------------------------------------------- totals

  /** Left-to-right sum of `f` over the lines, as `items.reduce` computes it. */
  function Sum(cart: seq<CartItem>, f: CartItem -> real): real {
    if |cart| == 0 then 0.0 else Sum(cart[..|cart| - 1], f) + f(cart[|cart| - 1])
  }

  function LineQuantity(x: CartItem): real { x.quantity as real }

  /** price × quantity of one line. */
  function LineTotal(x: CartItem): real { x.price * x.quantity as real }

  /** itemCount: the sum of quantities (not the number of lines). */
  function ItemCount(cart: seq<CartItem>): real { Sum(cart, LineQuantity) }

  /** subtotal: the sum of price × quantity. */
  function Subtotal(cart: seq<CartItem>): real { Sum(cart, LineTotal) }

  /** The delivery fee for a subtotal: free from the threshold up, the flat fee below it. */
  function Fee(subtotal: real): (fee: real)
    ensures fee == 0.0 <==> subtotal >= FreeDeliveryThreshold
    ensures fee == 0.0 || fee == FlatDeliveryFee
  {
    if subtotal >= FreeDeliveryThreshold then 0.0 else FlatDeliveryFee
  }

  /** deliveryFee: nothing from the threshold up, the flat fee below it. */
  function DeliveryFee(cart: seq<CartItem>): (fee: real)
    ensures fee == 0.0 <==> Subtotal(cart) >= FreeDeliveryThreshold
    ensures fee == 0.0 || fee == FlatDeliveryFee
  {
    Fee(Subtotal(cart))
  }

  /** total: the subtotal, plus the flat fee only below the threshold. */
  function Total(cart: seq<CartItem>): (t: real)
    ensures Subtotal(cart) >= FreeDeliveryThreshold ==> t == Subtotal(cart)
    ensures Subtotal(cart) < FreeDeliveryThreshold ==> t == Subtotal(cart) + FlatDeliveryFee
  {
    Subtotal(cart) + DeliveryFee(cart)
  }

  lemma {:induction false} SumConcat(a: seq<CartItem>, b: seq<CartItem>, f: CartItem -> real)
    ensures Sum(a + b, f) == Sum(a, f) + Sum(b, f)
  {
    if |b| == 0 {
      assert a + b == a;
    } else {
      assert (a + b)[..|a + b| - 1] == a + b[..|b| - 1];
      SumConcat(a, b[..|b| - 1], f);
    }
  }

  /** Replacing one line changes a sum by exactly the difference of that line's terms. */
  lemma SumReplace(cart: seq<CartItem>, k: nat, x: CartItem, f: CartItem -> real)
    requires k < |cart|
    ensures Sum(cart[k := x], f) == Sum(cart, f) - f(cart[k]) + f(x)
  {
    assert cart == cart[..k] + [cart[k]] + cart[k + 1..];
    assert cart[k := x] == cart[..k] + [x] + cart[k + 1..];
    SumConcat(cart[..k] + [cart[k]], cart[k + 1..], f);
    SumConcat(cart[..k], [cart[k]], f);
    SumConcat(cart[..k] + [x], cart[k + 1..], f);
    SumConcat(cart[..k], [x], f);
    assert Sum([x], f) == f(x) by { assert [x][..0] == []; }
    assert Sum([cart[k]], f) == f(cart[k]) by { assert [cart[k]][..0] == []; }
  }

  /** Removing the one line with an id takes away exactly that line's term. */
  lemma {:induction false} SumRemoveUnique(cart: seq<CartItem>, k: nat, f: CartItem -> real)
    requires UniqueIds(cart) && k < |cart|
    ensures RemoveItem(cart, cart[k].id) == cart[..k] + cart[k + 1..]
    ensures Sum(RemoveItem(cart, cart[k].id), f) == Sum(cart, f) - f(cart[k])
  {
    RemoveUniqueShape(cart, k);
    assert cart == cart[..k] + [cart[k]] + cart[k + 1..];
    SumConcat(cart[..k] + [cart[k]], cart[k + 1..], f);
    SumConcat(cart[..k], [cart[k]], f);
    SumConcat(cart[..k], cart[k + 1..], f);
    assert Sum([cart[k]], f) == f(cart[k]) by { assert [cart[k]][..0] == []; }
  }

  /** removeItem works line by line: filtering a concatenation filters each part. */
  lemma {:induction false} RemoveConcat(a: seq<CartItem>, b: seq<CartItem>, id: string)
    ensures RemoveItem(a + b, id) == RemoveItem(a, id) + RemoveItem(b, id)
  {
    if |a| == 0 {
      assert a + b == b;
    } else {
      assert (a + b)[0] == a[0] && (a + b)[1..] == a[1..] + b;
      RemoveConcat(a[1..], b, id);
    }
  }

  /** With unique ids, removeItem deletes exactly the one line and keeps the others in order. */
  lemma {:induction false} RemoveUniqueShape(cart: seq<CartItem>, k: nat)
    requires UniqueIds(cart) && k < |cart|
    ensures RemoveItem(cart, cart[k].id) == cart[..k] + cart[k + 1..]
  {
    var id := cart[k].id;
    var tail := cart[1..];
    if k == 0 {
      OthersLackId(cart, 0);
      assert RemoveItem(cart, id) == RemoveItem(tail, id);
    } else {
      TailUnique(cart);
      assert tail[k - 1] == cart[k];
      RemoveUniqueShape(tail, k - 1);
      assert RemoveItem(cart, id) == [cart[0]] + RemoveItem(tail, id);
      SkipAfterHead(cart, k);
    }
  }

  /** Cutting line `k` out of a cart is keeping the head and cutting line `k - 1` out of the tail. */
  lemma SkipAfterHead(cart: seq<CartItem>, k: nat)
    requires 0 < k < |cart|
    ensures cart[..k] + cart[k + 1..] == [cart[0]] + (cart[1..][..k - 1] + cart[1..][k..])
  {
    assert cart[..k] == [cart[0]] + cart[1..][..k - 1];
    assert cart[k + 1..] == cart[1..][k..];
  }

  /** Dropping the first line keeps the ids unique. */
  lemma TailUnique(cart: seq<CartItem>)
    requires UniqueIds(cart) && |cart| > 0
    ensures UniqueIds(cart[1..])
  {
    var tail := cart[1..];
    forall i, j | 0 <= i < j < |tail| ensures tail[i].id != tail[j].id {
      assert tail[i] == cart[i + 1] && tail[j] == cart[j + 1];
    }
  }

  /** With unique ids, no line before or after line `k` carries its id. */
  lemma OthersLackId(cart: seq<CartItem>, k: nat)
    requires UniqueIds(cart) && k < |cart|
    ensures !HasLine(cart[..k], cart[k].id) && !HasLine(cart[k + 1..], cart[k].id)
  {
    var id := cart[k].id;
    var front, back := cart[..k], cart[k + 1..];
    forall j | 0 <= j < |front| ensures front[j].id != id {
      assert front[j] == cart[j];
    }
    forall j | 0 <= j < |back| ensures back[j].id != id {
      assert back[j] == cart[k + 1 + j];
    }
  }

  /** Adding changes the item count by exactly the requested quantity. */
  lemma AddItemCount(cart: seq<CartItem>, item: NewItem, quantity: int)
    ensures ItemCount(AddItem(cart, item, quantity)) == ItemCount(cart) + quantity as real
  {
    var id := LineId(item.productId, item.cuttingStyle);
    match FindIndex(cart, id)
    case Some(k) =>
      SumReplace(cart, k, cart[k].(quantity := cart[k].quantity + quantity), LineQuantity);
    case None =>
      SumConcat(cart, [NewLine(item, quantity)], LineQuantity);
      assert [NewLine(item, quantity)][..0] == [];
  }

  /**
   * Adding raises the subtotal by the requested quantity at the price of the
   * line it lands on: the existing line's frozen price when it merges, the
   * supplied price when it appends.
   */
  lemma AddItemSubtotal(cart: seq<CartItem>, item: NewItem, quantity: int)
    ensures var unitPrice :=
        match FindIndex(cart, LineId(item.productId, item.cuttingStyle))
        case Some(k) => cart[k].price
        case None => item.price;
      Subtotal(AddItem(cart, item, quantity)) == Subtotal(cart) + unitPrice * quantity as real
  {
    var id := LineId(item.productId, item.cuttingStyle);
    match FindIndex(cart, id)
    case Some(k) =>
      var x := cart[k].(quantity := cart[k].quantity + quantity);
      assert AddItem(cart, item, quantity) == cart[k := x];
      SumReplace(cart, k, x, LineTotal);
      LineTotalStep(cart[k], quantity);
    case None =>
      assert AddItem(cart, item, quantity) == cart + [NewLine(item, quantity)];
      SumConcat(cart, [NewLine(item, quantity)], LineTotal);
      assert [NewLine(item, quantity)][..0] == [];
  }

  /** Raising a line's quantity by `d` raises its total by `d` units at its price. */
  lemma LineTotalStep(x: CartItem, d: int)
    ensures LineTotal(x.(quantity := x.quantity + d)) == LineTotal(x) + x.price * d as real
  {
    var p, q, e := x.price, x.quantity as real, d as real;
    assert (x.quantity + d) as real == q + e;
    assert p * (q + e) == p * q + p * e;
  }

  /** Setting a present line's quantity moves the item count from its old quantity to the new one. */
  lemma UpdateQuantityCount(cart: seq<CartItem>, k: nat, quantity: int)
    requires UniqueIds(cart) && k < |cart|
    ensures quantity >= 1 ==>
      ItemCount(UpdateQuantity(cart, cart[k].id, quantity)) == ItemCount(cart) - cart[k].quantity as real + quantity as real
    ensures quantity < 1 ==>
      ItemCount(UpdateQuantity(cart, cart[k].id, quantity)) == ItemCount(cart) - cart[k].quantity as real
  {
    if quantity >= 1 {
      UpdateUniqueShape(cart, k, quantity);
      SumReplace(cart, k, cart[k].(quantity := quantity), LineQuantity);
    } else {
      SumRemoveUnique(cart, k, LineQuantity);
    }
  }

  /** With unique ids, setting a positive quantity rewrites exactly the one line. */
  lemma UpdateUniqueShape(cart: seq<CartItem>, k: nat, quantity: int)
    requires UniqueIds(cart) && k < |cart| && quantity >= 1
    ensures UpdateQuantity(cart, cart[k].id, quantity) == cart[k := cart[k].(quantity := quantity)]
  {
  }

  /** Removing a present line takes its price × quantity off the subtotal. */
  lemma RemoveItemSubtotal(cart: seq<CartItem>, k: nat)
    requires UniqueIds(cart) && k < |cart|
    ensures Subtotal(RemoveItem(cart, cart[k].id)) == Subtotal(cart) - LineTotal(cart[k])
  {
    SumRemoveUnique(cart, k, LineTotal);
  }

  /** After clearCart nothing is counted, yet the flat delivery fee is still charged. */
  lemma ClearedCartTotals(cart: seq<CartItem>)
    ensures ItemCount(ClearCart(cart)) == 0.0 && Subtotal(ClearCart(cart)) == 0.0
    ensures DeliveryFee(ClearCart(cart)) == 30.0 && Total(ClearCart(cart)) == 30.0
  {
  }

  // ---------------------------------------------------------------- invariants

  predicate PositiveQuantities(cart: seq<CartItem>) {
    forall j :: 0 <= j < |cart| ==> cart[j].quantity >= 1
  }

  /** Every line's frozen price is at most its list price. */
  predicate PricesCapped(cart: seq<CartItem>) {
    forall j :: 0 <= j < |cart| ==> cart[j].price <= cart[j].originalPrice
  }

  lemma AddPreservesUnique(cart: seq<CartItem>, item: NewItem, quantity: int)
    requires UniqueIds(cart)
    ensures UniqueIds(AddItem(cart, item, quantity))
  {
    var r := AddItem(cart, item, quantity);
    var id := LineId(item.productId, item.cuttingStyle);
    if FindIndex(cart, id).None? {
      forall i, j | 0 <= i < j < |r| ensures r[i].id != r[j].id {
        if j == |cart| {
          assert r[i] == cart[i];
        } else {
          assert r[i] == cart[i] && r[j] == cart[j];
        }
      }
    } else {
      var k := FindIndex(cart, id).value;
      forall i, j | 0 <= i < j < |r| ensures r[i].id != r[j].id {
        assert r[i].id == cart[i].id && r[j].id == cart[j].id;
      }
    }
  }

  lemma {:induction false} RemovePreservesUnique(cart: seq<CartItem>, id: string)
    requires UniqueIds(cart)
    ensures UniqueIds(RemoveItem(cart, id))
  {
    if |cart| > 0 {
      TailUnique(cart);
      RemovePreservesUnique(cart[1..], id);
      if cart[0].id != id {
        var rest := RemoveItem(cart[1..], id);
        RemoveItemKeeps(cart[1..], id);
        HeadIdNotInTail(cart);
        ConsUnique(cart[0], rest);
      }
    }
  }

  /** With unique ids, no later line shares the first line's id. */
  lemma HeadIdNotInTail(cart: seq<CartItem>)
    requires UniqueIds(cart) && |cart| > 0
    ensures forall x :: x in cart[1..] ==> x.id != cart[0].id
  {
    forall x | x in cart[1..] ensures x.id != cart[0].id {
      var j :| 0 <= j < |cart[1..]| && cart[1..][j] == x;
      assert cart[j + 1] == x;
    }
  }

  /** A line whose id no other line has can go in front of a cart with unique ids. */
  lemma ConsUnique(x: CartItem, rest: seq<CartItem>)
    requires UniqueIds(rest) && forall y :: y in rest ==> y.id != x.id
    ensures UniqueIds([x] + rest)
  {
    var r := [x] + rest;
    forall i, j | 0 <= i < j < |r| ensures r[i].id != r[j].id {
      if i == 0 {
        assert r[j] in rest;
      } else {
        assert r[i] == rest[i - 1] && r[j] == rest[j - 1];
      }
    }
  }

  lemma UpdatePreservesUnique(cart: seq<CartItem>, id: string, quantity: int)
    requires UniqueIds(cart)
    ensures UniqueIds(UpdateQuantity(cart, id, quantity))
  {
    if quantity < 1 {
      RemovePreservesUnique(cart, id);
    } else {
      var r := UpdateQuantity(cart, id, quantity);
      forall i, j | 0 <= i < j < |r| ensures r[i].id != r[j].id {
        assert r[i].id == cart[i].id && r[j].id == cart[j].id;
      }
    }
  }

  // ---------------------------------------------------------------- operation sequences

  datatype CartOp =
    | Add(item: NewItem, quantity: int)
    | Remove(id: string)
    | Update(id: string, quantity: int)
    | Clear

  function Apply(cart: seq<CartItem>, op: CartOp): seq<CartItem> {
    match op
    case Add(item, q) => AddItem(cart, item, q)
    case Remove(id) => RemoveItem(cart, id)
    case Update(id, q) => UpdateQuantity(cart, id, q)
    case Clear => ClearCart(cart)
  }

  /** The cart after the operations, first to last. */
  function ApplyAll(cart: seq<CartItem>, ops: seq<CartOp>): seq<CartItem>
    decreases |ops|
  {
    if |ops| == 0 then cart else ApplyAll(Apply(cart, ops[0]), ops[1..])
  }

  /** Line ids stay pairwise distinct under any sequence of operations. */
  lemma {:induction false} UniqueIdsInvariant(cart: seq<CartItem>, ops: seq<CartOp>)
    requires UniqueIds(cart)
    ensures UniqueIds(ApplyAll(cart, ops))
    decreases |ops|
  {
    if |ops| > 0 {
      match ops[0] {
        case Add(item, q) => AddPreservesUnique(cart, item, q);
        case Remove(id) => RemovePreservesUnique(cart, id);
        case Update(id, q) => UpdatePreservesUnique(cart, id, q);
        case Clear =>
      }
      UniqueIdsInvariant(Apply(cart, ops[0]), ops[1..]);
    }
  }

  /** Every add in the sequence asks for at least one unit. */
  predicate AddsPositive(ops: seq<CartOp>) {
    forall k :: 0 <= k < |ops| && ops[k].Add? ==> ops[k].quantity >= 1
  }

  /** Every add in the sequence carries a price no higher than its list price. */
  predicate AddsCapped(ops: seq<CartOp>) {
    forall k :: 0 <= k < |ops| && ops[k].Add? ==> ops[k].item.price <= ops[k].item.originalPrice
  }

  lemma ApplyPreservesBounds(cart: seq<CartItem>, op: CartOp)
    requires PositiveQuantities(cart) && (op.Add? ==> op.quantity >= 1)
    requires PricesCapped(cart) && (op.Add? ==> op.item.price <= op.item.originalPrice)
    ensures PositiveQuantities(Apply(cart, op)) && PricesCapped(Apply(cart, op))
  {
    var r := Apply(cart, op);
    match op
    case Add(item, q) =>
    case Remove(id) =>
      RemoveItemKeeps(cart, id);
      forall j | 0 <= j < |r| ensures r[j].quantity >= 1 && r[j].price <= r[j].originalPrice {
        assert r[j] in cart;
      }
    case Update(id, q) =>
      if q < 1 {
        RemoveItemKeeps(cart, id);
        forall j | 0 <= j < |r| ensures r[j].quantity >= 1 && r[j].price <= r[j].originalPrice {
          assert r[j] in cart;
        }
      }
    case Clear =>
  }

  /**
   * If every add asks for at least one unit, every line keeps a quantity of at
   * least one; and if every add carries a price no higher than its list price,
   * so does every line.
   */
  lemma {:induction false} BoundsInvariant(cart: seq<CartItem>, ops: seq<CartOp>)
    requires PositiveQuantities(cart) && AddsPositive(ops)
    requires PricesCapped(cart) && AddsCapped(ops)
    ensures PositiveQuantities(ApplyAll(cart, ops)) && PricesCapped(ApplyAll(cart, ops))
    decreases |ops|
  {
    if |ops| > 0 {
      ApplyPreservesBounds(cart, ops[0]);
      assert AddsPositive(ops[1..]) && AddsCapped(ops[1..]) by {
        forall k | 0 <= k < |ops[1..]| ensures ops[1..][k] == ops[k + 1] {}
      }
      BoundsInvariant(Apply(cart, ops[0]), ops[1..]);
    }
  }

  /** addItem itself accepts any quantity: adding 0 units of a new product makes a 0-quantity line. */
  lemma AddAcceptsNonPositive(item: NewItem)
    ensures !PositiveQuantities(AddItem([], item, 0))
  {
    assert AddItem([], item, 0)[0].quantity == 0;
  }

  // ---------------------------------------------------------------- repeated adds

  /** Adds of (item, quantity) pairs, first to last. */
  function AddAll(cart: seq<CartItem>, adds: seq<(NewItem, int)>): seq<CartItem>
    decreases |adds|
  {
    if |adds| == 0 then cart else AddAll(AddItem(cart, adds[0].0, adds[0].1), adds[1..])
  }

  function QuantitySum(adds: seq<(NewItem, int)>): int {
    if |adds| == 0 then 0 else adds[0].1 + QuantitySum(adds[1..])
  }

  predicate SameLine(adds: seq<(NewItem, int)>, id: string) {
    forall k :: 0 <= k < |adds| ==> LineId(adds[k].0.productId, adds[k].0.cuttingStyle) == id
  }

  /**
   * Repeated adds of one (product, style) pair to a cart without that line end
   * in exactly one new line at the end, holding the sum of the quantities and
   * the name, image and price of the FIRST add.
   */
  lemma RepeatedAdds(cart: seq<CartItem>, adds: seq<(NewItem, int)>)
    requires |adds| > 0
    requires !HasLine(cart, LineId(adds[0].0.productId, adds[0].0.cuttingStyle))
    requires SameLine(adds, LineId(adds[0].0.productId, adds[0].0.cuttingStyle))
    ensures var r := AddAll(cart, adds);
      && |r| == |cart| + 1
      && r[..|cart|] == cart
      && r[|cart|] == NewLine(adds[0].0, QuantitySum(adds))
  {
    var c1 := AddItem(cart, adds[0].0, adds[0].1);
    assert SameLine(adds[1..], c1[|cart|].id) by {
      forall k | 0 <= k < |adds[1..]| ensures adds[1..][k] == adds[k + 1] {}
    }
    MergeAll(c1, |cart|, adds[1..]);
  }

  /** The cart with line `k`'s quantity raised by `d` and nothing else changed. */
  function Bump(cart: seq<CartItem>, k: nat, d: int): seq<CartItem>
    requires k < |cart|
  {
    cart[k := cart[k].(quantity := cart[k].quantity + d)]
  }

  /** Raising a line keeps every id where it was. */
  lemma BumpKeepsIds(cart: seq<CartItem>, k: nat, d: int)
    requires k < |cart|
    ensures |Bump(cart, k, d)| == |cart|
    ensures forall j :: 0 <= j < |cart| ==> Bump(cart, k, d)[j].id == cart[j].id
  {
  }

  /** Two raises of the same line are one raise by the sum. */
  lemma BumpTwice(cart: seq<CartItem>, k: nat, a: int, b: int)
    requires k < |cart|
    ensures Bump(Bump(cart, k, a), k, b) == Bump(cart, k, a + b)
  {
  }

  lemma {:induction false} MergeAll(cart: seq<CartItem>, k: nat, adds: seq<(NewItem, int)>)
    requires k < |cart|
    requires forall j :: 0 <= j < k ==> cart[j].id != cart[k].id
    requires SameLine(adds, cart[k].id)
    ensures AddAll(cart, adds) == Bump(cart, k, QuantitySum(adds))
    decreases |adds|
  {
    if |adds| == 0 {
      assert Bump(cart, k, 0) == cart;
    } else {
      var tail := adds[1..];
      AddMerges(cart, k, adds[0].0, adds[0].1);
      var c1 := Bump(cart, k, adds[0].1);
      BumpKeepsIds(cart, k, adds[0].1);
      assert SameLine(tail, c1[k].id) by {
        forall j | 0 <= j < |tail| ensures tail[j] == adds[j + 1] {}
      }
      MergeAll(c1, k, tail);
      BumpTwice(cart, k, adds[0].1, QuantitySum(tail));
    }
  }

  /** An add whose id first occurs at `k` merges into line `k`. */
  lemma AddMerges(cart: seq<CartItem>, k: nat, item: NewItem, quantity: int)
    requires k < |cart| && cart[k].id == LineId(item.productId, item.cuttingStyle)
    requires forall j :: 0 <= j < k ==> cart[j].id != cart[k].id
    ensures AddItem(cart, item, quantity) == Bump(cart, k, quantity)
  {
    var f := FindIndex(cart, cart[k].id);
    assert f.Some? by {
      assert HasLine(cart, cart[k].id);
    }
    assert f.value == k;
  }

  // ---------------------------------------------------------------- storage

  /** What reading the storage key can yield once JSON.parse has run (or failed). */
  datatype Stored =
    | Missing                          // no value, or the empty string
    | Unparseable                      // JSON.parse threw
    | NotAnArray                       // valid JSON, but not an array
    | StoredArray(items: seq<CartItem>)

  /** The initial cart: the stored array if there is one, else the empty cart; never an error. */
  function LoadCart(stored: Stored): (cart: seq<CartItem>)
    ensures stored.StoredArray? ==> cart == stored.items
    ensures !stored.StoredArray? ==> cart == []
  {
    match stored
    case StoredArray(items) => items
    case _ => []
  }

  /** A cart restored from a non-array keeps every invariant; an adopted array keeps exactly those it had. */
  lemma LoadedCartInvariants(stored: Stored)
    ensures !stored.StoredArray? ==>
      UniqueIds(LoadCart(stored)) && PositiveQuantities(LoadCart(stored)) && PricesCapped(LoadCart(stored))
      && Total(LoadCart(stored)) == 30.0
    ensures stored.StoredArray? ==> (UniqueIds(LoadCart(stored)) <==> UniqueIds(stored.items))
  {
  }
}
