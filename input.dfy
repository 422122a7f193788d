/**
 * `Input`: a text field with an optional label, optional addons on either
 * side and optional helper text. The model computes the element tree the
 * component renders, reduced to the attributes the component itself sets.
 */
module Input {
  import opened Js
  import opened Styles

  /** A `React.ReactNode` passed as an addon, reduced to what decides how it
      renders: an element (always truthy), a string, a number, a boolean, or
      nothing (`undefined`/`null`). */
  datatype Addon = Element | AddonText(text: string) | AddonNumber(n: int) | AddonFlag(flag: bool) | NoAddon

  /** JavaScript truthiness of an addon. */
  predicate Present(a: Addon) {
    match a
    case Element => true
    case AddonText(t) => t != ""
    case AddonNumber(n) => n != 0
    case AddonFlag(b) => b
    case NoAddon => false
  }

  /** The props the component reads (the rest are passed to `<input>` unchanged). */
  datatype Props = Props(
    labelText: Option<string>,
    helperText: Option<string>,
    error: Option<bool>,
    leftAddon: Addon,
    rightAddon: Addon,
    className: Option<string>,
    id: Option<string>)

  // ---------------------------------------------------------------------------
  // The id derived from the label
  // ---------------------------------------------------------------------------

  /** The characters the ECMAScript regular-expression class `\s` matches:
      the white-space and line-terminator code points. */
  predicate IsWhitespace(c: char) {
    c == '\t' || c == '\n' || c == '\U{B}' || c == '\U{C}' || c == '\r' || c == ' '
    || c == '\U{A0}' || c == '\U{1680}' || ('\U{2000}' <= c <= '\U{200A}')
    || c == '\U{2028}' || c == '\U{2029}' || c == '\U{202F}' || c == '\U{205F}'
    || c == '\U{3000}' || c == '\U{FEFF}'
  }

  /** Lower-casing of one character, for the ASCII letters. */
  function LowerChar(c: char): (r: char)
    ensures 'A' <= c <= 'Z' ==> r as int == c as int + 32
    ensures !('A' <= c <= 'Z') ==> r == c
    ensures !('A' <= r <= 'Z')
  {
    if 'A' <= c <= 'Z' then (c as int + 32) as char else c
  }

  /** `String.prototype.toLowerCase`, character by character. */
  function ToLowerCase(s: string): (r: string)
    ensures |r| == |s|
    ensures forall i :: 0 <= i < |s| ==> r[i] == LowerChar(s[i])
  {
    if s == [] then [] else [LowerChar(s[0])] + ToLowerCase(s[1..])
  }

  /** `s.replace(/\s/g, '-')`: every white-space character becomes a hyphen. */
  function ReplaceWhitespace(s: string): (r: string)
    ensures |r| == |s|
    ensures forall i :: 0 <= i < |s| ==> r[i] == if IsWhitespace(s[i]) then '-' else s[i]
  {
    if s == [] then [] else [if IsWhitespace(s[0]) then '-' else s[0]] + ReplaceWhitespace(s[1..])
  }

  /** `text.toLowerCase().replace(/\s/g, '-')`. */
  function Slug(text: string): (r: string)
    ensures |r| == |text|
    ensures forall i :: 0 <= i < |r| ==> !IsWhitespace(r[i]) && !('A' <= r[i] <= 'Z')
    ensures forall i :: 0 <= i < |r| && !IsWhitespace(text[i]) ==> r[i] == LowerChar(text[i])
    ensures forall i :: 0 <= i < |r| && IsWhitespace(text[i]) ==> r[i] == '-'
  {
    ReplaceWhitespace(ToLowerCase(text))
  }

  /** A label that is already lower case and free of white space is its own
      slug. */
  lemma SlugOfSlug(text: string)
    requires forall i :: 0 <= i < |text| ==> !IsWhitespace(text[i]) && !('A' <= text[i] <= 'Z')
    ensures Slug(text) == text
  {
  }

  /** A slug is its own slug: the hyphens and lower-case letters it is made of
      are left alone by both steps. */
  lemma SlugIdempotent(text: string)
    ensures Slug(Slug(text)) == Slug(text)
  {
    var s := Slug(text);
    forall i | 0 <= i < |s|
      ensures Slug(s)[i] == s[i]
    {
      assert LowerChar(s[i]) == s[i];
    }
  }

  /** `inputId`: `id || label?.toLowerCase().replace(/\s/g, '-')`. An empty
      `id` falls through to the label; a missing label gives no id, and an
      empty label gives the empty id. */
  function InputId(p: Props): (r: Option<string>)
    ensures p.id.Some? && p.id.value != "" ==> r == p.id
    ensures (p.id.None? || p.id.value == "") && p.labelText.None? ==> r.None?
    ensures (p.id.None? || p.id.value == "") && p.labelText.Some? ==>
      r.Some? && |r.value| == |p.labelText.value|
      && forall i :: 0 <= i < |r.value| ==> !IsWhitespace(r.value[i])
    ensures (p.id.None? || p.id.value == "") && p.labelText.Some? ==> r == Some(Slug(p.labelText.value))
  {
    if p.id.Some? && p.id.value != "" then p.id
    else if p.labelText.None? then None
    else Some(Slug(p.labelText.value))
  }

  // ---------------------------------------------------------------------------
  // Class strings
  // ---------------------------------------------------------------------------

  /** The label's classes. */
  const LabelClass := Cn(Words([TextSm, FontMedium, TextPrimary, "block mb-1.5"]))

  /** The label's classes: small medium-weight primary text on its own line. */
  lemma LabelClassValue()
    ensures LabelClass == "text-sm" + " " + "font-medium" + " " + "text-zinc-900" + " " + "block mb-1.5"
  {
    CnWords([TextSm, FontMedium, TextPrimary, "block mb-1.5"]);
    JoinFour("text-sm", "font-medium", "text-zinc-900", "block mb-1.5");
  }

  /** `cond ? s : ''` as a `cn` argument. */
  function When(cond: bool, s: string): (r: Arg)
    ensures Truthy(r) <==> cond && s != ""
    ensures cond ==> Text(r) == s
  {
    S(if cond then s else "")
  }

  /** The red border and ring of the error state. */
  const ErrorClass := "border-red-300 focus:ring-red-500"

  /** `cn(base, left ? 'pl-10' : '', right ? 'pr-10' : '', error ? … : '')`
      for any non-empty base class string. */
  lemma ComposeInput(base: string, left: bool, right: bool, error: bool)
    requires base != ""
    ensures Cn([S(base), When(left, "pl-10"), When(right, "pr-10"), When(error, ErrorClass)])
      == base + (ClassIf(left, "pl-10") + ClassIf(right, "pr-10") + ClassIf(error, ErrorClass))
  {
    CnFour(base, When(left, "pl-10"), When(right, "pr-10"), When(error, ErrorClass));
    AppendedWhen(left, "pl-10");
    AppendedWhen(right, "pr-10");
    AppendedWhen(error, ErrorClass);
    Regroup(base, Appended(When(left, "pl-10")), Appended(When(right, "pr-10")),
            Appended(When(error, ErrorClass)));
  }

  /** What a conditional class adds after a non-empty class string. */
  lemma AppendedWhen(cond: bool, s: string)
    requires s != ""
    ensures Appended(When(cond, s)) == ClassIf(cond, s)
  {
  }

  /** Regrouping a concatenation of four strings. */
  lemma Regroup(a: string, b: string, c: string, d: string)
    ensures a + b + c + d == a + (b + c + d)
  {
    assert a + b + c == a + (b + c);
    assert (a + (b + c)) + d == a + ((b + c) + d);
  }

  /** The `<input>`'s classes: the input preset, then `pl-10` when there is a
      left addon, `pr-10` when there is a right addon, and the red border and
      ring in the error state. */
  function InputClass(p: Props): (r: string)
    ensures r == InputBase + (ClassIf(Present(p.leftAddon), "pl-10")
      + ClassIf(Present(p.rightAddon), "pr-10") + ClassIf(p.error == Some(true), ErrorClass))
  {
    PresetNonEmpty(InputBaseClasses);
    ComposeInput(InputBase, Present(p.leftAddon), Present(p.rightAddon), p.error == Some(true));
    Cn([S(InputBase), When(Present(p.leftAddon), "pl-10"), When(Present(p.rightAddon), "pr-10"),
        When(p.error == Some(true), ErrorClass)])
  }

  /** The helper text's colour: red in the error state, muted otherwise. */
  function HelperColor(error: Option<bool>): (r: string)
    ensures r == "text-red-600" <==> error == Some(true)
    ensures error != Some(true) ==> r == TextMuted
  {
    assert TextMuted[5] != "text-red-600"[5];
    if error == Some(true) then "text-red-600" else TextMuted
  }

  /** The helper text's classes: extra-small text with a top margin, in the
      helper colour. */
  function HelperClass(p: Props): (r: string)
    ensures r == TextXs + " " + "mt-1.5" + " " + HelperColor(p.error)
  {
    CnThree(TextXs, S("mt-1.5"), S(HelperColor(p.error)));
    Cn([S(TextXs), S("mt-1.5"), S(HelperColor(p.error))])
  }

  // ---------------------------------------------------------------------------
  // The rendered tree
  // ---------------------------------------------------------------------------

  /** The classes of the box that holds the left addon. */
  const LeftBoxClass := "absolute left-3 top-1/2 transform -translate-y-1/2 text-zinc-400"

  /** The classes of the box that holds the right addon. */
  const RightBoxClass := "absolute right-3 top-1/2 transform -translate-y-1/2 text-zinc-400"

  /** What `{addon && (<div …>{addon}</div>)}` renders: the box around a
      truthy addon; otherwise the falsy value itself, of which React shows
      only a number (`0`) and nothing else. */
  datatype Slot = Box(className: string, content: Addon) | Bare(text: string) | Nothing

  /** The `<label>`. */
  datatype LabelView = LabelView(htmlFor: Option<string>, className: string, text: string)

  /** The `<input>`. */
  datatype InputView = InputView(id: Option<string>, className: string)

  /** The helper `<p>`. */
  datatype HelperView = HelperView(className: string, text: string)

  /** The whole tree: the outer `<div>` with `className` as given, the
      optional label, the relative box with the addons and the input, and the
      optional helper text. */
  datatype View = View(
    className: Option<string>,
    labelElement: Option<LabelView>,
    left: Slot,
    input: InputView,
    right: Slot,
    helper: Option<HelperView>)

  /** `{addon && (<div className={boxClass}>{addon}</div>)}`. */
  function AddonSlot(a: Addon, boxClass: string): (r: Slot)
    ensures r.Box? <==> Present(a)
    ensures r.Box? ==> r == Box(boxClass, a)
    ensures r.Bare? <==> a == AddonNumber(0)
    ensures r.Bare? ==> r.text == "0"
  {
    if Present(a) then Box(boxClass, a)
    else if a.AddonNumber? then Bare("0")
    else Nothing
  }

  /** `Input(props)`. An empty label or helper text is falsy and renders
      nothing, like a missing one. */
  function Render(p: Props): (v: View)
    ensures v.className == p.className
    ensures v.labelElement.Some? <==> p.labelText.Some? && p.labelText.value != ""
    ensures v.labelElement.Some? ==> v.labelElement.value == LabelView(InputId(p), LabelClass, p.labelText.value)
    ensures v.left.Box? <==> Present(p.leftAddon)
    ensures v.right.Box? <==> Present(p.rightAddon)
    ensures v.input == InputView(InputId(p), InputClass(p))
    ensures v.helper.Some? <==> p.helperText.Some? && p.helperText.value != ""
    ensures v.helper.Some? ==> v.helper.value == HelperView(HelperClass(p), p.helperText.value)
  {
    var id := InputId(p);
    View(
      p.className,
      if p.labelText.Some? && p.labelText.value != "" then Some(LabelView(id, LabelClass, p.labelText.value)) else None,
      AddonSlot(p.leftAddon, LeftBoxClass),
      InputView(id, InputClass(p)),
      AddonSlot(p.rightAddon, RightBoxClass),
      if p.helperText.Some? && p.helperText.value != "" then Some(HelperView(HelperClass(p), p.helperText.value)) else None)
  }

  // ---------------------------------------------------------------------------
  // Properties
  // ---------------------------------------------------------------------------

  /** A rendered label always points at the input: `htmlFor` is the input's
      `id`, and that id is present and non-empty. */
  lemma LabelPointsAtInput(p: Props)
    requires Render(p).labelElement.Some?
    ensures Render(p).labelElement.value.htmlFor == Render(p).input.id
    ensures Render(p).input.id.Some? && Render(p).input.id.value != ""
  {
  }

  /** A string followed by anything starts with that string. */
  lemma StartsWith(a: string, b: string)
    ensures |a| <= |a + b| && (a + b)[..|a|] == a
  {
  }

  /** The input's classes always begin with the input preset, which the
      conditional classes only extend. */
  lemma InputClassExtendsBase(p: Props)
    ensures |InputBase| <= |InputClass(p)| && InputClass(p)[..|InputBase|] == InputBase
  {
    StartsWith(InputBase, InputClass(p)[|InputBase|..]);
    assert InputClass(p) == InputBase + InputClass(p)[|InputBase|..];
  }

  /** In the error state the input carries the red border and ring. */
  lemma ErrorBorder(p: Props)
    requires p.error == Some(true)
    ensures Contains(InputClass(p), ErrorClass)
  {
    EndsWith(InputBase, ClassIf(Present(p.leftAddon), "pl-10") + ClassIf(Present(p.rightAddon), "pr-10"),
             ErrorClass);
  }

  /** A class list ending in `t` contains `t`. */
  lemma EndsWith(a: string, b: string, t: string)
    ensures Contains(a + (b + (" " + t)), t)
  {
    assert OccursAt(a + (b + (" " + t)), t, |a| + |b| + 1);
  }

  /** The helper text is red exactly in the error state. */
  lemma ErrorHelper(p: Props)
    ensures p.error == Some(true) <==> HelperClass(p) == TextXs + " " + "mt-1.5" + " " + "text-red-600"
  {
    var pre := TextXs + " " + "mt-1.5" + " ";
    assert HelperClass(p) == pre + HelperColor(p.error);
    if HelperClass(p) == pre + "text-red-600" {
      assert HelperClass(p)[|pre|..] == "text-red-600";
    }
  }

  /** An addon with no content, `false` or the empty string adds neither a
      box nor padding, the same as a missing addon; `0` adds no box or padding
      either, but React shows it as the text `0`. */
  lemma FalsyAddons(p: Props, a: Addon)
    requires !Present(a)
    ensures InputClass(p.(leftAddon := a)) == InputClass(p.(leftAddon := NoAddon))
    ensures InputClass(p.(rightAddon := a)) == InputClass(p.(rightAddon := NoAddon))
    ensures Render(p.(leftAddon := a)).left == (if a.AddonNumber? then Bare("0") else Nothing)
  {
    assert InputClass(p.(leftAddon := a)) == InputClass(p.(leftAddon := NoAddon)) by {
      InputClassFrom(p.(leftAddon := a), p.(leftAddon := NoAddon));
    }
    assert InputClass(p.(rightAddon := a)) == InputClass(p.(rightAddon := NoAddon)) by {
      InputClassFrom(p.(rightAddon := a), p.(rightAddon := NoAddon));
    }
  }

  /** The input's classes depend only on whether each addon is truthy and on
      the error flag. */
  lemma InputClassFrom(p: Props, q: Props)
    requires Present(p.leftAddon) == Present(q.leftAddon)
    requires Present(p.rightAddon) == Present(q.rightAddon)
    requires (p.error == Some(true)) == (q.error == Some(true))
    ensures InputClass(p) == InputClass(q)
  {
  }
}
