/**
 * The cutting-style label tables. The cart line (components/store/CartItem.tsx)
 * knows five styles; the selection modal (components/store/CuttingStyleModal.tsx)
 * knows eight. Both show `LABELS[style] || style`: the Hebrew label when the
 * table has one, the raw style string otherwise.
 */
module CuttingStyles {
  import opened Wrappers

  type LabelTable = seq<(string, string)>

  /** The five entries of the cart line's table. */
  const CartLabels: LabelTable := [
    ("WHOLE", "שלם"),
    ("SLICED", "פרוסות"),
    ("FILLET_SKIN", "פילה עם עור"),
    ("FILLET_SKINLESS", "פילה בלי עור"),
    ("BUTTERFLIED", "פתוח")
  ]

  /** The three entries only the modal's table has. */
  const ModalExtras: LabelTable := [
    ("LENGTHWISE_CUTS", "חריצים לאורך"),
    ("HEAD_TAIL", "ראש זנב"),
    ("GROUND", "טחון")
  ]

  /** The eight entries of the modal's table: the cart's five and three more. */
  const ModalLabels: LabelTable := CartLabels + ModalExtras

  /** The value stored under `key` (first entry wins, as an object literal has one per key). */
  function Lookup(table: LabelTable, key: string): (r: Option<string>)
    ensures r.Some? ==> (key, r.value) in table
    ensures r.None? <==> forall e :: e in table ==> e.0 != key
  {
    if |table| == 0 then None
    else if table[0].0 == key then Some(table[0].1)
    else
      var r := Lookup(table[1..], key);
      assert forall e :: e in table ==> e == table[0] || e in table[1..];
      r
  }

  /** `LABELS[style] || style`: an empty or missing label falls back to the style itself. */
  function Label(table: LabelTable, style: string): (r: string)
    ensures Lookup(table, style).None? ==> r == style
    ensures Lookup(table, style).Some? && Lookup(table, style).value != "" ==> r == Lookup(table, style).value
  {
    match Lookup(table, style)
    case Some(l) => if l != "" then l else style
    case None => style
  }

  /** The keys of a table. */
  function Keys(table: LabelTable): (ks: set<string>)
    ensures forall k :: k in ks <==> exists e :: e in table && e.0 == k
  {
    set e | e in table :: e.0
  }

  /** Looking up in a concatenation consults the second table only when the first lacks the key. */
  lemma {:induction false} LookupConcat(a: LabelTable, b: LabelTable, key: string)
    ensures Lookup(a + b, key) == if Lookup(a, key).Some? then Lookup(a, key) else Lookup(b, key)
  {
    if |a| > 0 {
      assert (a + b)[0] == a[0] && (a + b)[1..] == a[1..] + b;
      LookupConcat(a[1..], b, key);
    } else {
      assert a + b == b;
    }
  }

  /** On every style the cart line knows, the modal shows the same label. */
  lemma TablesAgreeOnCartStyles(style: string)
    requires Lookup(CartLabels, style).Some?
    ensures Label(ModalLabels, style) == Label(CartLabels, style)
  {
    LookupConcat(CartLabels, ModalExtras, style);
  }

  /**
   * The three styles only the modal knows show their Hebrew label in the
   * modal but the raw value on the cart line.
   */
  lemma ModalOnlyStyles(style: string)
    requires style in {"LENGTHWISE_CUTS", "HEAD_TAIL", "GROUND"}
    ensures Label(CartLabels, style) == style
    ensures Label(ModalLabels, style) != style
  {
    CartLacksModalOnly(style);
    ExtrasKnowModalOnly(style);
    LookupConcat(CartLabels, ModalExtras, style);
  }

  lemma ExtrasKnowModalOnly(style: string)
    requires style in {"LENGTHWISE_CUTS", "HEAD_TAIL", "GROUND"}
    ensures Lookup(ModalExtras, style).Some?
    ensures Lookup(ModalExtras, style).value != "" && Lookup(ModalExtras, style).value != style
  {
    if style == "LENGTHWISE_CUTS" {
      assert Lookup(ModalExtras, style) == Some("חריצים לאורך");
    } else if style == "HEAD_TAIL" {
      assert ModalExtras[0].0 != style;
      assert Lookup(ModalExtras, style) == Some("ראש זנב");
    } else {
      assert ModalExtras[0].0 != style && ModalExtras[1].0 != style;
      assert Lookup(ModalExtras, style) == Some("טחון");
    }
  }

  lemma CartLacksModalOnly(style: string)
    requires style in {"LENGTHWISE_CUTS", "HEAD_TAIL", "GROUND"}
    ensures Lookup(CartLabels, style).None?
  {
    assert forall e :: e in CartLabels ==> e.0 != style;
  }

  /** A style neither table knows is shown raw in both places. */
  lemma UnknownStyleShownRaw(style: string)
    requires style !in Keys(ModalLabels)
    ensures Label(CartLabels, style) == style && Label(ModalLabels, style) == style
  {
    assert forall e :: e in CartLabels ==> e in ModalLabels;
  }
}
