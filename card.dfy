/**
 * `Card`: a container whose class string is the preset of its variant,
 * the padding class of its padding, and any extra classes.
 */
module Card {
  import opened Js
  import opened Styles

  /** `variant`. */
  datatype Variant = Default | Interactive | Dark | Muted

  /** `padding`. */
  datatype Padding = PadNone | PadSm | PadMd | PadLg

  /** The props that decide the class string (`children` is only rendered). */
  datatype Props = Props(variant: Option<Variant>, padding: Option<Padding>, className: Option<string>)

  /** The variant lookup table: each variant selects its card preset. */
  function VariantClass(v: Variant): (r: string)
    ensures r != ""
  {
    PresetNonEmpty(CardBaseClasses);
    PresetNonEmpty(CardInteractiveClasses);
    PresetNonEmpty(CardDarkClasses);
    PresetNonEmpty(CardMutedClasses);
    match v
    case Default => CardBase
    case Interactive => CardInteractive
    case Dark => CardDark
    case Muted => CardMuted
  }

  /** The padding lookup table; only `none` maps to the empty string. */
  function PaddingClass(pd: Padding): (r: string)
    ensures r == "" <==> pd == PadNone
  {
    match pd
    case PadNone => ""
    case PadSm => "p-4"
    case PadMd => "p-6"
    case PadLg => "p-8"
  }

  /** The variant after the destructuring default `'default'`. */
  function VariantOf(p: Props): Variant {
    WithDefault(p.variant, Default)
  }

  /** The padding after the destructuring default `'md'`. */
  function PaddingOf(p: Props): Padding {
    WithDefault(p.padding, PadMd)
  }

  /** The `className` of the card's `<div>`: the variant preset, then the
      padding class and the extra classes, each with one space in front and
      each only when non-empty. */
  function ClassName(p: Props): (r: string)
    ensures r == VariantClass(VariantOf(p)) + Appended(S(PaddingClass(PaddingOf(p))))
      + Appended(OptArg(p.className))
  {
    CnThree(VariantClass(VariantOf(p)), S(PaddingClass(PaddingOf(p))), OptArg(p.className));
    Cn([S(VariantClass(VariantOf(p))), S(PaddingClass(PaddingOf(p))), OptArg(p.className)])
  }

  /** With every prop left out, a card is the base preset with `p-6`. */
  lemma DefaultCard()
    ensures ClassName(Props(None, None, None)) == CardBase + " " + "p-6"
  {
  }

  /** The fourth character of each preset and the extension of the base by
      the interactive preset: enough to tell all four apart. */
  lemma PresetMarks()
    ensures CardBase[3] == 'w' && CardInteractive[3] == 'w'
    ensures CardDark[3] == 'g' && CardMuted[3] == 'z'
    ensures |CardBase| < |CardInteractive|
  {
    BaseMark();
    InteractiveMark();
    DarkMark();
    MutedMark();
    CardInteractiveExtendsBase();
  }

  lemma BaseMark()
    ensures 3 < |CardBase| && CardBase[3] == 'w'
  {
    PresetChar(CardBaseClasses, 3);
  }

  lemma InteractiveMark()
    ensures 3 < |CardInteractive| && CardInteractive[3] == 'w'
  {
    PresetChar(CardInteractiveClasses, 3);
  }

  lemma DarkMark()
    ensures 3 < |CardDark| && CardDark[3] == 'g'
  {
    PresetChar(CardDarkClasses, 3);
  }

  lemma MutedMark()
    ensures 3 < |CardMuted| && CardMuted[3] == 'z'
  {
    PresetChar(CardMutedClasses, 3);
  }

  /** Each variant selects its own preset: two variants give the same
      classes only when they are the same variant. */
  lemma VariantsDistinct(v: Variant, w: Variant)
    ensures VariantClass(v) == VariantClass(w) <==> v == w
  {
    PresetMarks();
  }

  /** Each padding selects its own class. */
  lemma PaddingsDistinct(a: Padding, b: Padding)
    ensures PaddingClass(a) == PaddingClass(b) <==> a == b
  {
    if a != b && a != PadNone && b != PadNone {
      assert PaddingClass(a)[2] != PaddingClass(b)[2];
    }
  }

  /** `padding='none'` adds nothing: the class string is the preset followed
      only by the extra classes. */
  lemma NoPaddingAddsNothing(v: Option<Variant>, className: Option<string>)
    ensures ClassName(Props(v, Some(PadNone), className))
      == VariantClass(WithDefault(v, Default)) + Appended(OptArg(className))
  {
  }

  /** The class string starts with the variant preset; the padding class
      follows it; the extra classes come last, and an absent or empty
      `className` leaves no trailing space. */
  lemma ClassOrder(p: Props)
    requires PaddingOf(p) != PadNone
    ensures ClassName(p) == VariantClass(VariantOf(p)) + " " + PaddingClass(PaddingOf(p))
      + Appended(OptArg(p.className))
    ensures p.className.None? || p.className == Some("") ==>
      ClassName(p) == VariantClass(VariantOf(p)) + " " + PaddingClass(PaddingOf(p))
  {
  }
}
