/**
 * The cutting-style modal (components/store/CuttingStyleModal.tsx): a small
 * state machine over the selected style and the quantity, driven by opening,
 * clicking a style, the +/- stepper and the add button.
 */
module CuttingModal {
  import opened Wrappers
  import opened Cart
  import CuttingStyles
  import Storefront

  /** The modal's own state; `""` means no style selected. */
  datatype ModalState = ModalState(selected: string, quantity: int)

  /** The state the component mounts with. */
  const Initial := ModalState("", 1)

  datatype ModalEvent =
    | Opened            // isOpen became true (or the style list changed while open)
    | Pick(style: string)
    | Inc
    | Dec

  /** Opening with a non-empty style list selects the first style and resets the quantity to one. */
  function OnOpen(s: ModalState, styles: seq<string>): (r: ModalState)
    ensures |styles| > 0 ==> r == ModalState(styles[0], 1)
    ensures |styles| == 0 ==> r == s
  {
    if |styles| > 0 then ModalState(styles[0], 1) else s
  }

  /** `setQuantity(Math.max(1, quantity - 1))`. */
  function DecQuantity(q: int): (r: int)
    ensures r >= 1
    ensures q >= 2 ==> r == q - 1
    ensures q <= 2 ==> r == 1
  {
    if q - 1 > 1 then q - 1 else 1
  }

  function Step(s: ModalState, styles: seq<string>, e: ModalEvent): ModalState {
    match e
    case Opened => OnOpen(s, styles)
    case Pick(style) => s.(selected := style)
    case Inc => s.(quantity := s.quantity + 1)
    case Dec => s.(quantity := DecQuantity(s.quantity))
  }

  function Run(s: ModalState, styles: seq<string>, events: seq<ModalEvent>): ModalState
    decreases |events|
  {
    if |events| == 0 then s else Run(Step(s, styles, events[0]), styles, events[1..])
  }

  /** The style buttons only ever offer the product's own styles. */
  predicate PicksOffered(styles: seq<string>, events: seq<ModalEvent>) {
    forall i :: 0 <= i < |events| && events[i].Pick? ==> events[i].style in styles
  }

  /** The modal's invariant: a quantity of at least one and a selection that is empty or offered. */
  predicate Good(s: ModalState, styles: seq<string>) {
    s.quantity >= 1 && (s.selected == "" || s.selected in styles)
  }

  /**
   * From the initial state, whatever the user clicks, the quantity stays at
   * least one and the selection is empty or one of the offered styles.
   */
  lemma {:induction false} RunKeepsGood(s: ModalState, styles: seq<string>, events: seq<ModalEvent>)
    requires Good(s, styles) && PicksOffered(styles, events)
    ensures Good(Run(s, styles, events), styles)
    decreases |events|
  {
    if |events| > 0 {
      assert PicksOffered(styles, events[1..]) by {
        forall i | 0 <= i < |events[1..]| && events[1..][i].Pick?
          ensures events[1..][i].style in styles
        {
          assert events[1..][i] == events[i + 1];
        }
      }
      RunKeepsGood(Step(s, styles, events[0]), styles, events[1..]);
    }
  }

  lemma InitialIsGood(styles: seq<string>)
    ensures Good(Initial, styles)
  {
  }

  /** The add button is disabled exactly when no style is selected. */
  predicate AddDisabled(s: ModalState) {
    s.selected == ""
  }

  /** `handleAdd`: forwards the selected style and quantity only when a style is selected. */
  function HandleAdd(s: ModalState): (r: Option<(string, int)>)
    ensures r.None? <==> AddDisabled(s)
    ensures r.Some? ==> r.value == (s.selected, s.quantity)
  {
    if s.selected != "" then Some((s.selected, s.quantity)) else None
  }

  /** Clicking a style selects it. */
  lemma PickSelects(s: ModalState, styles: seq<string>, style: string)
    ensures Step(s, styles, Pick(style)).selected == style
    ensures Step(s, styles, Pick(style)).quantity == s.quantity
  {
  }

  /** The total under the stepper: the price the card charges times the quantity. */
  function ModalTotal(price: real, s: ModalState): (t: real)
    ensures s.quantity >= 1 && price >= 0.0 ==> t >= price
  {
    price * s.quantity as real
  }

  /** Each + raises the shown total by one unit price; a - above one lowers it by one unit price. */
  lemma TotalTracksStepper(price: real, s: ModalState)
    ensures ModalTotal(price, Step(s, [], Inc)) == ModalTotal(price, s) + price
    ensures s.quantity >= 2 ==> ModalTotal(price, Step(s, [], Dec)) == ModalTotal(price, s) - price
    ensures s.quantity <= 1 ==> ModalTotal(price, Step(s, [], Dec)) == price
  {
  }

  /** The modal renders nothing unless it is open and mounted. */
  function Rendered(isOpen: bool, mounted: bool, s: ModalState): (r: Option<ModalState>)
    ensures r.Some? <==> isOpen && mounted
    ensures r.Some? ==> r.value == s
  {
    if !isOpen || !mounted then None else Some(s)
  }

  /** A style button's caption: the modal's eight-entry table, falling back to the raw style. */
  function StyleCaption(style: string): (c: string)
    ensures CuttingStyles.Lookup(CuttingStyles.ModalLabels, style).None? ==> c == style
  {
    CuttingStyles.Label(CuttingStyles.ModalLabels, style)
  }

  /**
   * The whole modal flow keeps the cart's bounds: whatever the user clicks
   * after the card opened the modal, the add it forwards carries an offered
   * style and a quantity of at least one, so the new or merged line keeps a
   * positive quantity and a price no higher than the list price.
   */
  lemma ModalAddKeepsBounds(card: Storefront.CardState, p: Storefront.Product, events: seq<ModalEvent>)
    requires Storefront.NeedsModal(p)
    requires PositiveQuantities(card.cart) && PricesCapped(card.cart)
    requires PicksOffered(p.cuttingStyles.value, events)
    ensures var s := Run(Initial, p.cuttingStyles.value, events);
      HandleAdd(s).Some? ==>
        && HandleAdd(s).value.0 in p.cuttingStyles.value
        && HandleAdd(s).value.1 >= 1
        && PositiveQuantities(Storefront.ModalAdd(card, p, HandleAdd(s).value.0, HandleAdd(s).value.1).cart)
        && PricesCapped(Storefront.ModalAdd(card, p, HandleAdd(s).value.0, HandleAdd(s).value.1).cart)
  {
    var styles := p.cuttingStyles.value;
    RunKeepsGood(Initial, styles, events);
    var s := Run(Initial, styles, events);
    if HandleAdd(s).Some? {
      var item := Storefront.CardItem(p, Some(s.selected));
      ApplyPreservesBounds(card.cart, Add(item, s.quantity));
    }
  }
}
