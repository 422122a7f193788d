/**
 * `Badge`: a small label whose class string is the badge preset, a colour
 * chosen from the custom colour, the status or a default, and any extra
 * classes.
 */
module Badge {
  import opened Js
  import opened Styles

  /** The props that decide the class string (`children` is only rendered). */
  datatype Props = Props(status: Option<Status>, color: Option<string>, className: Option<string>)

  /** The colour used with neither a custom colour nor a status. */
  const DefaultColor := "bg-zinc-100 text-zinc-700"

  /** `colorClass`: `color || (status ? getStatusColor(status) : default)`. */
  function ColorClass(p: Props): (r: string)
    ensures r != ""
  {
    // A defined status is truthy: no status literal is empty.
    Or(p.color, if p.status.Some? then GetStatusColor(Key(p.status.value)) else DefaultColor)
  }

  /** The `className` of the badge's `<span>`: the preset, one space, the
      colour, then the extra classes only when they are non-empty. */
  function ClassName(p: Props): (r: string)
    ensures r == BadgePreset + " " + ColorClass(p) + Appended(OptArg(p.className))
  {
    PresetNonEmpty(BadgeClasses);
    CnThree(BadgePreset, S(ColorClass(p)), OptArg(p.className));
    assert BadgePreset + Appended(S(ColorClass(p))) == BadgePreset + " " + ColorClass(p);
    Cn([S(BadgePreset), S(ColorClass(p)), OptArg(p.className)])
  }

  /** A non-empty custom colour wins over any status; without one the
      status colour is used, and with neither the default colour. */
  lemma ColorPrecedence(p: Props)
    ensures p.color.Some? && p.color.value != "" ==> ColorClass(p) == p.color.value
    ensures (p.color.None? || p.color.value == "") && p.status.Some? ==>
      ColorClass(p) == GetStatusColor(Key(p.status.value))
    ensures (p.color.None? || p.color.value == "") && p.status.None? ==>
      ColorClass(p) == DefaultColor
  {
  }

  /** An empty custom colour counts as no custom colour at all. */
  lemma EmptyColorIsAbsent(p: Props)
    ensures ClassName(p.(color := Some(""))) == ClassName(p.(color := None))
  {
  }

  /** With a status and no custom colour the badge is always coloured by one
      of the four status colours, and aliases look like their base status. */
  lemma StatusBadge(s: Status, className: Option<string>)
    ensures ColorClass(Props(Some(s), None, className)) in {StatusSuccess, StatusWarning, StatusInfo, StatusError}
    ensures ClassName(Props(Some(s), None, className)) == ClassName(Props(Some(BaseStatus(s)), None, className))
  {
    StatusAliases(s, s);
  }
}
