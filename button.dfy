/**
 * `Button`: the class string of a button is its variant preset, its size
 * classes, `w-full` when it is full width, and any extra classes.
 */
module Button {
  import opened Js
  import opened Styles

  /** `variant`. */
  datatype Variant = Primary | Secondary | Ghost

  /** `size`. */
  datatype Size = Sm | Md | Lg

  /** The props that decide the class string (`children` and the remaining
      button attributes are only passed through). */
  datatype Props = Props(variant: Option<Variant>, size: Option<Size>,
                         fullWidth: Option<bool>, className: Option<string>)

  /** `baseClass`: each variant selects its button preset. */
  function VariantClass(v: Variant): (r: string)
    ensures r != ""
  {
    PresetNonEmpty(ButtonPrimaryClasses);
    PresetNonEmpty(ButtonSecondaryClasses);
    PresetNonEmpty(ButtonGhostClasses);
    match v
    case Primary => ButtonPrimary
    case Secondary => ButtonSecondary
    case Ghost => ButtonGhost
  }

  /** `sizeClass`: horizontal and vertical padding and a text size per size. */
  function SizeClass(s: Size): (r: string)
    ensures r != ""
  {
    match s
    case Sm => "px-3 py-1.5 text-xs"
    case Md => "px-4 py-2 text-sm"
    case Lg => "px-6 py-3 text-base"
  }

  /** The variant after the destructuring default `'primary'`. */
  function VariantOf(p: Props): Variant {
    WithDefault(p.variant, Primary)
  }

  /** The size after the destructuring default `'md'`. */
  function SizeOf(p: Props): Size {
    WithDefault(p.size, Md)
  }

  /** The arguments the button passes to `cn`, in order. */
  function Args(p: Props): (r: seq<Arg>)
    ensures |r| == 4
  {
    [S(VariantClass(VariantOf(p))), S(SizeClass(SizeOf(p))), And(p.fullWidth, "w-full"), OptArg(p.className)]
  }

  /** `cn(base, size, fullWidth && 'w-full', className)` for any non-empty
      base and size classes. */
  lemma Compose(base: string, size: string, fullWidth: Option<bool>, className: Option<string>)
    requires base != "" && size != ""
    ensures Cn([S(base), S(size), And(fullWidth, "w-full"), OptArg(className)])
      == base + " " + size + ClassIf(fullWidth == Some(true), "w-full")
        + Appended(OptArg(className))
  {
    CnFour(base, S(size), And(fullWidth, "w-full"), OptArg(className));
    AppendedFlag(fullWidth);
    assert base + Appended(S(size)) == base + " " + size;
  }

  /** What `fullWidth && 'w-full'` adds after a non-empty class string. */
  lemma AppendedFlag(fullWidth: Option<bool>)
    ensures Appended(And(fullWidth, "w-full")) == ClassIf(fullWidth == Some(true), "w-full")
  {
  }

  /** The `className` of the `<button>`: the variant preset and the size
      classes one space apart, then ` w-full` exactly when `fullWidth` is
      `true`, then the extra classes when they are non-empty. */
  function ClassName(p: Props): (r: string)
    ensures r == VariantClass(VariantOf(p)) + " " + SizeClass(SizeOf(p))
      + ClassIf(p.fullWidth == Some(true), "w-full")
      + Appended(OptArg(p.className))
  {
    Compose(VariantClass(VariantOf(p)), SizeClass(SizeOf(p)), p.fullWidth, p.className);
    Cn(Args(p))
  }

  /** With every prop left out, a button is the primary preset with the
      medium size classes after it. */
  lemma DefaultButton()
    ensures ClassName(Props(None, None, None, None)) == ButtonPrimary + " " + "px-4 py-2 text-sm"
  {
  }

  /** `fullWidth={false}` and a missing `fullWidth` give the same classes:
      `false && 'w-full'` is `false`, which `cn` drops. */
  lemma FullWidthFalse(v: Option<Variant>, s: Option<Size>, className: Option<string>)
    ensures ClassName(Props(v, s, Some(false), className)) == ClassName(Props(v, s, None, className))
  {
  }

  /** `w-full` follows the size classes exactly when `fullWidth` is `true`. */
  lemma FullWidthPosition(p: Props)
    ensures p.fullWidth == Some(true) <==>
      ClassName(p) == VariantClass(VariantOf(p)) + " " + SizeClass(SizeOf(p)) + " w-full"
        + Appended(OptArg(p.className))
  {
    FlagInserted(VariantClass(VariantOf(p)) + " " + SizeClass(SizeOf(p)), p.fullWidth == Some(true),
                 Appended(OptArg(p.className)));
  }

  /** ` w-full` sits between `prefix` and `tail` exactly when the flag holds. */
  lemma FlagInserted(prefix: string, flag: bool, tail: string)
    ensures prefix + ClassIf(flag, "w-full") + tail == prefix + " w-full" + tail <==> flag
  {
    if !flag {
      assert |prefix + ClassIf(flag, "w-full") + tail| == |prefix| + |tail|;
    }
  }

  /** `cn` resolves no conflicts: the preset's classes and the size classes
      both reach the button whole, whatever the props. */
  lemma PresetAndSizeBothKept(p: Props)
    ensures Contains(ClassName(p), VariantClass(VariantOf(p)))
    ensures Contains(ClassName(p), SizeClass(SizeOf(p)))
    ensures p.fullWidth == Some(true) ==> Contains(ClassName(p), "w-full")
  {
    CnKeepsArg(Args(p), 0);
    CnKeepsArg(Args(p), 1);
    if p.fullWidth == Some(true) {
      CnKeepsArg(Args(p), 2);
    }
  }

  /** The primary and secondary presets already carry `px-4 py-2` and
      `text-sm`. */
  lemma PresetPaddingKept(v: Variant)
    requires v != Ghost
    ensures Contains(VariantClass(v), "px-4 py-2")
    ensures Contains(VariantClass(v), "text-sm")
  {
    var ws := if v == Primary then ButtonPrimaryClasses else ButtonSecondaryClasses;
    assert Words(ws)[3] == S("px-4 py-2");
    CnKeepsArg(Words(ws), 3);
    assert Words(ws)[4] == S("text-sm");
    CnKeepsArg(Words(ws), 4);
  }

  /** A class that occurs in `pre` and again in `size` occurs twice in the
      class string they start. */
  lemma TwiceIn(pre: string, size: string, r1: string, r2: string, t: string, k: int)
    requires Contains(pre, t)
    requires OccursAt(size, t, k)
    ensures OccursTwice(pre + " " + size + r1 + r2, t)
  {
    var s := pre + " " + size + r1 + r2;
    var i :| 0 <= i <= |pre| && OccursAt(pre, t, i);
    OccursBefore(pre, " " + size + r1 + r2, t, i);
    OccursAfter(pre + " ", size + r1 + r2, t, k) by {
      OccursBefore(size, r1 + r2, t, k);
    }
    assert pre + (" " + size + r1 + r2) == s;
    assert (pre + " ") + (size + r1 + r2) == s;
    assert OccursAt(s, t, i) && OccursAt(s, t, |pre| + 1 + k);
  }

  /** Where `px-4 py-2` and `text-sm` sit in the medium size classes. */
  lemma MediumSize()
    ensures OccursAt(SizeClass(Md), "px-4 py-2", 0)
    ensures OccursAt(SizeClass(Md), "text-sm", 10)
  {
  }

  /** `cn` does not deduplicate: a primary or secondary button of the default
      size carries `px-4 py-2` and `text-sm` twice, once from the preset and
      once from the size classes. */
  lemma DuplicateClasses(p: Props)
    requires VariantOf(p) != Ghost && SizeOf(p) == Md
    ensures OccursTwice(ClassName(p), "px-4 py-2")
    ensures OccursTwice(ClassName(p), "text-sm")
  {
    var pre, size := VariantClass(VariantOf(p)), SizeClass(SizeOf(p));
    var r1, r2 := ClassIf(p.fullWidth == Some(true), "w-full"), Appended(OptArg(p.className));
    PresetPaddingKept(VariantOf(p));
    MediumSize();
    TwiceIn(pre, size, r1, r2, "px-4 py-2", 0);
    TwiceIn(pre, size, r1, r2, "text-sm", 10);
  }

  lemma PrimaryMark()
    ensures 3 < |ButtonPrimary| && ButtonPrimary[3] == 'z'
  {
    PresetChar(ButtonPrimaryClasses, 3);
  }

  lemma SecondaryMark()
    ensures 3 < |ButtonSecondary| && ButtonSecondary[3] == 'w'
  {
    PresetChar(ButtonSecondaryClasses, 3);
  }

  lemma GhostMark()
    ensures 3 < |ButtonGhost| && ButtonGhost[3] == '.'
  {
    PresetChar(ButtonGhostClasses, 3);
  }

  /** Each variant selects its own preset. */
  lemma VariantsDistinct(v: Variant, w: Variant)
    ensures VariantClass(v) == VariantClass(w) <==> v == w
  {
    PrimaryMark();
    SecondaryMark();
    GhostMark();
  }

  /** Each size selects its own classes. */
  lemma SizesDistinct(a: Size, b: Size)
    ensures SizeClass(a) == SizeClass(b) <==> a == b
  {
    if a != b {
      assert SizeClass(a)[3] != SizeClass(b)[3];
    }
  }
}
