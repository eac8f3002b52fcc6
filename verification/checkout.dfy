/**
 * The checkout endpoint (POST in app/api/orders/route.ts): validate the
 * request in a fixed order, pick an order number that is not taken (at most
 * ten lookups), and build the order record from the request. The database is
 * the set of order numbers already stored; the generator is a sequence of
 * draws.
 */
module Checkout {
  import opened Wrappers
  import opened Text
  import opened Fields

  /** One line of the request body as the client sends it. */
  datatype RequestItem = RequestItem(
    productId: string,
    productName: string,
    quantity: int,
    unitPrice: real,
    totalPrice: real,
    cuttingStyle: Option<string>)

  /** The `items` field: absent or falsy, present but not an array, or an array. */
  datatype ItemsField = NoItems | NotAnArray | ItemArray(items: seq<RequestItem>)

  /** The request body; a `None` string field is absent or null. */
  datatype OrderRequest = OrderRequest(
    customerName: Option<string>,
    customerPhone: Option<string>,
    customerEmail: Option<string>,
    address: Option<string>,
    city: Option<string>,
    notes: Option<string>,
    items: ItemsField,
    subtotal: real,
    deliveryFee: real,
    total: real)

  /** The five 400 answers, in the order they are checked. */
  datatype CheckoutError = NameRequired | PhoneRequired | AddressRequired | CityRequired | ItemsRequired

  predicate HasItems(f: ItemsField) {
    f.ItemArray? && |f.items| > 0
  }

  /** The validation chain: the first failing check decides the answer. */
  function Validate(req: OrderRequest): (r: Option<CheckoutError>)
    ensures r == Some(NameRequired) <==> Missing(req.customerName)
    ensures r == Some(PhoneRequired) <==> !Missing(req.customerName) && Missing(req.customerPhone)
    ensures r == Some(AddressRequired) <==>
      !Missing(req.customerName) && !Missing(req.customerPhone) && Missing(req.address)
    ensures r == Some(CityRequired) <==>
      !Missing(req.customerName) && !Missing(req.customerPhone) && !Missing(req.address) && Missing(req.city)
    ensures r == Some(ItemsRequired) <==>
      !Missing(req.customerName) && !Missing(req.customerPhone) && !Missing(req.address) && !Missing(req.city)
      && !HasItems(req.items)
    ensures r.None? <==>
      !Missing(req.customerName) && !Missing(req.customerPhone) && !Missing(req.address) && !Missing(req.city)
      && HasItems(req.items)
  {
    if Missing(req.customerName) then Some(NameRequired)
    else if Missing(req.customerPhone) then Some(PhoneRequired)
    else if Missing(req.address) then Some(AddressRequired)
    else if Missing(req.city) then Some(CityRequired)
    else if !HasItems(req.items) then Some(ItemsRequired)
    else None
  }

  /** The lookups allowed before giving up on a free number. */
  const MaxAttempts: nat := 10

  /** The number is taken only if every one of the ten checked draws was. */
  predicate TakenOnlyIfAllTaken(existing: set<string>, draw: nat -> string, number: string) {
    number in existing ==> forall i :: 0 <= i < MaxAttempts ==> draw(i) in existing
  }

  /**
   * The retry loop. `draw(0)` is the first generated number and `draw(i)` the
   * one generated after the i-th collision. Returns the number the order gets
   * and how many lookups were made.
   */
  method PickOrderNumber(existing: set<string>, draw: nat -> string) returns (number: string, checks: nat)
    ensures 1 <= checks <= MaxAttempts
    ensures forall i :: 0 <= i < checks - 1 ==> draw(i) in existing
    ensures draw(checks - 1) !in existing ==> number == draw(checks - 1)
    ensures draw(checks - 1) in existing ==> checks == MaxAttempts && number == draw(MaxAttempts)
    ensures TakenOnlyIfAllTaken(existing, draw, number)
  {
    number := draw(0);
    var attempts: nat := 0;
    checks := 0;
    while attempts < MaxAttempts
      invariant attempts <= MaxAttempts
      invariant number == draw(attempts)
      invariant checks == attempts
      invariant forall i :: 0 <= i < attempts ==> draw(i) in existing
    {
      checks := checks + 1;
      if number !in existing {
        break;
      }
      attempts := attempts + 1;
      number := draw(attempts);
    }
  }

  /**
   * The loop returns the first free draw when one of the first ten is free;
   * only when all ten collide does it return an eleventh draw nobody checked.
   */
  lemma PickedNumberIsFirstFree(existing: set<string>, draw: nat -> string, number: string, checks: nat)
    requires 1 <= checks <= MaxAttempts
    requires forall i :: 0 <= i < checks - 1 ==> draw(i) in existing
    requires draw(checks - 1) !in existing ==> number == draw(checks - 1)
    requires draw(checks - 1) in existing ==> checks == MaxAttempts && number == draw(MaxAttempts)
    ensures (exists i :: 0 <= i < MaxAttempts && draw(i) !in existing) ==> number !in existing
    ensures (forall i :: 0 <= i < MaxAttempts ==> draw(i) in existing) ==> number == draw(MaxAttempts)
  {
    if exists i :: 0 <= i < MaxAttempts && draw(i) !in existing {
      var i :| 0 <= i < MaxAttempts && draw(i) !in existing;
      assert i >= checks - 1;
    }
  }

  /**
   * Reference definition of the retry loop: the index of the first free draw
   * at or after `i` among the ten checked ones, or `MaxAttempts` when they are
   * all taken.
   */
  function FirstFreeFrom(existing: set<string>, draw: nat -> string, i: nat): (k: nat)
    requires i <= MaxAttempts
    ensures i <= k <= MaxAttempts
    ensures k < MaxAttempts ==> draw(k) !in existing
    ensures forall j :: i <= j < k ==> draw(j) in existing
    decreases MaxAttempts - i
  {
    if i == MaxAttempts then MaxAttempts
    else if draw(i) !in existing then i
    else FirstFreeFrom(existing, draw, i + 1)
  }

  /** The number an order gets: the first free draw, or the eleventh draw when all ten collide. */
  function PickedNumber(existing: set<string>, draw: nat -> string): string {
    var k := FirstFreeFrom(existing, draw, 0);
    if k < MaxAttempts then draw(k) else draw(MaxAttempts)
  }

  /** The lookups made: up to and including the first free draw, or all ten. */
  function ChecksMade(existing: set<string>, draw: nat -> string): nat {
    var k := FirstFreeFrom(existing, draw, 0);
    if k < MaxAttempts then k + 1 else MaxAttempts
  }

  /** What PickOrderNumber promises pins down exactly the reference number and lookup count. */
  lemma PickMatchesReference(existing: set<string>, draw: nat -> string, number: string, checks: nat)
    requires 1 <= checks <= MaxAttempts
    requires forall i :: 0 <= i < checks - 1 ==> draw(i) in existing
    requires draw(checks - 1) !in existing ==> number == draw(checks - 1)
    requires draw(checks - 1) in existing ==> checks == MaxAttempts && number == draw(MaxAttempts)
    ensures number == PickedNumber(existing, draw)
    ensures checks == ChecksMade(existing, draw)
  {
    var k := FirstFreeFrom(existing, draw, 0);
    if draw(checks - 1) !in existing {
      assert k >= checks - 1;
    } else {
      assert k >= MaxAttempts - 1;
      assert k != MaxAttempts - 1;
    }
  }

  datatype OrderStatus = Pending | Confirmed | Preparing | Ready | Delivered | Cancelled

  datatype OrderItem = OrderItem(
    productId: string,
    productName: string,
    quantity: int,
    unitPrice: real,
    totalPrice: real,
    cuttingStyle: Option<string>)

  datatype OrderRecord = OrderRecord(
    orderNumber: string,
    customerName: string,
    customerPhone: string,
    customerEmail: Option<string>,
    address: string,
    city: string,
    notes: Option<string>,
    subtotal: real,
    deliveryFee: real,
    total: real,
    status: OrderStatus,
    items: seq<OrderItem>)

  /** One order line per request line, in order, every field passed through. */
  function ToOrderItems(xs: seq<RequestItem>): (ys: seq<OrderItem>)
    ensures |ys| == |xs|
    ensures forall j :: 0 <= j < |xs| ==>
      && ys[j].productId == xs[j].productId
      && ys[j].productName == xs[j].productName
      && ys[j].quantity == xs[j].quantity
      && ys[j].unitPrice == xs[j].unitPrice
      && ys[j].totalPrice == xs[j].totalPrice
      && ys[j].cuttingStyle == xs[j].cuttingStyle
  {
    seq(|xs|, j requires 0 <= j < |xs| =>
      OrderItem(xs[j].productId, xs[j].productName, xs[j].quantity, xs[j].unitPrice, xs[j].totalPrice, xs[j].cuttingStyle))
  }

  /** The record handed to the database for a request that passed validation. */
  function BuildOrder(req: OrderRequest, number: string): (o: OrderRecord)
    requires Validate(req).None?
    ensures o.orderNumber == number && o.status == Pending
    ensures o.customerName == Trim(req.customerName.value) && o.customerName != ""
    ensures o.customerPhone == Trim(req.customerPhone.value) && o.customerPhone != ""
    ensures o.address == Trim(req.address.value) && o.address != ""
    ensures o.city == Trim(req.city.value) && o.city != ""
    ensures o.customerEmail == TrimOrNull(req.customerEmail) && o.notes == TrimOrNull(req.notes)
    ensures o.subtotal == req.subtotal && o.deliveryFee == req.deliveryFee && o.total == req.total
    ensures o.items == ToOrderItems(req.items.items) && |o.items| > 0
  {
    OrderRecord(
      number,
      Trim(req.customerName.value),
      Trim(req.customerPhone.value),
      TrimOrNull(req.customerEmail),
      Trim(req.address.value),
      Trim(req.city.value),
      TrimOrNull(req.notes),
      req.subtotal,
      req.deliveryFee,
      req.total,
      Pending,
      ToOrderItems(req.items.items))
  }

  datatype Response = BadRequest(error: CheckoutError) | Created(order: OrderRecord)

  /**
   * The whole handler: a rejected request makes no lookup at all; an accepted
   * one gets the picked number and the record built from the request.
   */
  method PlaceOrder(req: OrderRequest, existing: set<string>, draw: nat -> string) returns (resp: Response, checks: nat)
    ensures resp.BadRequest? <==> Validate(req).Some?
    ensures resp.BadRequest? ==> resp.error == Validate(req).value && checks == 0
    ensures resp.Created? ==> 1 <= checks <= MaxAttempts
    ensures resp.Created? ==> Validate(req).None? && resp.order == BuildOrder(req, resp.order.orderNumber)
    ensures resp.Created? ==> resp.order.orderNumber == PickedNumber(existing, draw)
    ensures resp.Created? ==> checks == ChecksMade(existing, draw)
    ensures resp.Created? ==> TakenOnlyIfAllTaken(existing, draw, resp.order.orderNumber)
  {
    var v := Validate(req);
    if v.Some? {
      return BadRequest(v.value), 0;
    }
    var number;
    number, checks := PickOrderNumber(existing, draw);
    PickMatchesReference(existing, draw, number, checks);
    resp := Created(BuildOrder(req, number));
    assert resp.order.orderNumber == number;
  }

  /**
   * The stored totals are the client's numbers whatever the lines say: two
   * requests that differ only in their totals give records that differ only
   * in their totals.
   */
  lemma TotalsNotRecomputed(req: OrderRequest, subtotal: real, deliveryFee: real, total: real, number: string)
    requires Validate(req).None?
    ensures var other := req.(subtotal := subtotal, deliveryFee := deliveryFee, total := total);
      Validate(other).None?
      && BuildOrder(other, number) == BuildOrder(req, number).(subtotal := subtotal, deliveryFee := deliveryFee, total := total)
  {
  }
}
