/**
 * The style layer of the template: the design tokens of `theme`, the `cn`
 * class-name combinator, the status-to-colour table `getStatusColor`, and
 * the `presets` class strings built from the tokens with `cn`.
 */
module Styles {
  import opened Js

  // ---------------------------------------------------------------------------
  // Design tokens: the parts of `theme` that the presets and components read
  // ---------------------------------------------------------------------------

  // theme.colors.background
  const BackgroundPrimary := "bg-white"
  const BackgroundSecondary := "bg-zinc-50"
  const BackgroundTertiary := "bg-zinc-100"
  const BackgroundInverse := "bg-zinc-900"
  const BackgroundGradient := "bg-gradient-to-br from-zinc-900 to-zinc-800"

  // theme.colors.text
  const TextPrimary := "text-zinc-900"
  const TextSecondary := "text-zinc-600"
  const TextMuted := "text-zinc-500"
  const TextSubtle := "text-zinc-400"
  const TextInverse := "text-white"
  const TextLight := "text-zinc-300"

  // theme.colors.border
  const BorderLight := "border-zinc-100"
  const BorderDefault := "border-zinc-200"
  const BorderDark := "border-zinc-300"

  // theme.colors.status
  const StatusSuccess := "bg-green-100 text-green-700"
  const StatusWarning := "bg-yellow-100 text-yellow-700"
  const StatusInfo := "bg-blue-100 text-blue-700"
  const StatusError := "bg-red-100 text-red-700"

  // theme.radius
  const RadiusSm := "rounded-lg"
  const RadiusMd := "rounded-xl"
  const RadiusLg := "rounded-2xl"
  const RadiusXl := "rounded-3xl"
  const RadiusFull := "rounded-full"

  // theme.transition
  const TransitionFast := "transition-all duration-150"
  const TransitionDefault := "transition-all duration-200"
  const TransitionSlow := "transition-all duration-300"
  const TransitionColors := "transition-colors duration-200"
  const TransitionOpacity := "transition-opacity duration-200"

  // theme.text (sizes)
  const TextXs := "text-xs"
  const TextSm := "text-sm"
  const TextBase := "text-base"
  const TextLg := "text-lg"
  const TextXl := "text-xl"
  const Text2xl := "text-2xl"

  // theme.font
  const FontNormal := "font-normal"
  const FontMedium := "font-medium"
  const FontSemibold := "font-semibold"
  const FontBold := "font-bold"

  // ---------------------------------------------------------------------------
  // cn: keep the truthy arguments and join them with single spaces
  // ---------------------------------------------------------------------------

  /** `args.filter(Boolean)`: the truthy arguments, in their order. */
  function Kept(args: seq<Arg>): (r: seq<Arg>)
    ensures |r| <= |args|
    ensures forall i :: 0 <= i < |r| ==> Truthy(r[i]) && r[i] in args
    ensures forall i :: 0 <= i < |args| && Truthy(args[i]) ==> args[i] in r
  {
    if args == [] then []
    else if Truthy(args[0]) then [args[0]] + Kept(args[1..])
    else Kept(args[1..])
  }

  /** The text `join` writes for each element. */
  function Texts(args: seq<Arg>): (r: seq<string>)
    ensures |r| == |args|
    ensures forall i :: 0 <= i < |args| ==> r[i] == Text(args[i])
  {
    if args == [] then [] else [Text(args[0])] + Texts(args[1..])
  }

  /** `parts.join(' ')`: the parts with one space between neighbours. */
  function Join(parts: seq<string>): (r: string)
    ensures r == "" <==> |parts| == 0 || (|parts| == 1 && parts[0] == "")
  {
    if |parts| == 0 then ""
    else if |parts| == 1 then parts[0]
    else parts[0] + " " + Join(parts[1..])
  }

  /** `cn(...classes)`: the result is empty exactly when no argument is truthy. */
  function Cn(args: seq<Arg>): (r: string)
    ensures r == "" <==> forall i :: 0 <= i < |args| ==> !Truthy(args[i])
  {
    var kept := Kept(args);
    assert kept != [] ==> exists j :: 0 <= j < |args| && args[j] == kept[0];
    Join(Texts(kept))
  }

  // ---------------------------------------------------------------------------
  // Reference readings of a class string
  // ---------------------------------------------------------------------------

  /** Two class strings joined as `cn` joins them: an empty side is dropped. */
  function Glue(a: string, b: string): (r: string)
    ensures r == "" <==> a == "" && b == ""
  {
    if a == "" then b else if b == "" then a else a + " " + b
  }

  /** `s.split(' ')`: the pieces of `s` between single spaces. */
  function Split(s: string): (r: seq<string>)
    ensures |r| >= 1
  {
    if s == "" then [""]
    else if s[0] == ' ' then [""] + Split(s[1..])
    else
      var rest := Split(s[1..]);
      [[s[0]] + rest[0]] + rest[1..]
  }

  /** No leading or trailing space, and never two spaces in a row. */
  predicate WellSpaced(s: string) {
    s == "" ||
    (s[0] != ' ' && s[|s| - 1] != ' ' &&
     forall i :: 0 <= i < |s| - 1 ==> !DoubleSpaceAt(s, i))
  }

  /** Two spaces in a row start at position `i` of `s`. */
  predicate DoubleSpaceAt(s: string, i: nat)
    requires i + 1 < |s|
  {
    s[i] == ' ' && s[i + 1] == ' '
  }

  /** `t` occurs in `s` as a contiguous piece. */
  predicate Contains(s: string, t: string) {
    exists i :: 0 <= i <= |s| && OccursAt(s, t, i)
  }

  /** `t` occurs in `s` starting at position `i`. */
  predicate OccursAt(s: string, t: string, i: int) {
    0 <= i && i + |t| <= |s| && s[i..i + |t|] == t
  }

  // ---------------------------------------------------------------------------
  // Properties of cn
  // ---------------------------------------------------------------------------

  lemma GlueAssociative(a: string, b: string, c: string)
    ensures Glue(Glue(a, b), c) == Glue(a, Glue(b, c))
  {
  }

  lemma JoinCons(t: string, ts: seq<string>)
    requires t != ""
    requires forall i :: 0 <= i < |ts| ==> ts[i] != ""
    ensures Join([t] + ts) == Glue(t, Join(ts))
  {
    if ts != [] {
      assert ([t] + ts)[1..] == ts;
    }
  }

  /** The first argument of `cn` is dropped when falsy, and otherwise glued
      in front of what the remaining arguments give. */
  lemma CnCons(a: Arg, rest: seq<Arg>)
    ensures Cn([a] + rest) == if Truthy(a) then Glue(Text(a), Cn(rest)) else Cn(rest)
  {
    assert ([a] + rest)[1..] == rest;
    var kept := Kept(rest);
    if Truthy(a) {
      assert Kept([a] + rest) == [a] + kept;
      assert ([a] + kept)[1..] == kept;
      assert Texts([a] + kept) == [Text(a)] + Texts(kept);
      JoinCons(Text(a), Texts(kept));
    }
  }

  /** `cn` over two argument lists is the two results glued: the kept
      arguments stay in argument order, one space apart. */
  lemma {:induction false} CnAppend(xs: seq<Arg>, ys: seq<Arg>)
    ensures Cn(xs + ys) == Glue(Cn(xs), Cn(ys))
  {
    if xs == [] {
      assert xs + ys == ys;
    } else {
      var a := xs[0];
      assert xs == [a] + xs[1..];
      assert xs + ys == [a] + (xs[1..] + ys);
      CnCons(a, xs[1..] + ys);
      CnCons(a, xs[1..]);
      CnAppend(xs[1..], ys);
      GlueAssociative(Text(a), Cn(xs[1..]), Cn(ys));
    }
  }

  /** With exactly one truthy argument, a string, `cn` returns that string unchanged. */
  lemma CnSingleTruthy(args: seq<Arg>, k: nat, s: string)
    requires k < |args| && args[k] == S(s)
    requires forall i :: 0 <= i < |args| && i != k ==> !Truthy(args[i])
    ensures Cn(args) == s
  {
    var pre, post := args[..k], args[k + 1..];
    assert args == pre + ([args[k]] + post);
    assert Cn(pre) == "" by {
      forall i | 0 <= i < |pre| ensures !Truthy(pre[i]) {
        assert pre[i] == args[i];
      }
    }
    assert Cn(post) == "" by {
      forall i | 0 <= i < |post| ensures !Truthy(post[i]) {
        assert post[i] == args[k + 1 + i];
      }
    }
    CnAppend(pre, [args[k]] + post);
    CnCons(args[k], post);
  }

  /** Nesting `cn` inside `cn` makes no difference: the inner result is one
      argument whose text is the inner arguments joined, and is dropped when empty. */
  lemma CnFlatten(xs: seq<Arg>, ys: seq<Arg>, zs: seq<Arg>)
    ensures Cn(xs + [S(Cn(ys))] + zs) == Cn(xs + ys + zs)
  {
    var inner := S(Cn(ys));
    CnAppend(xs + [inner], zs);
    CnAppend(xs, [inner]);
    CnCons(inner, []);
    CnAppend(xs + ys, zs);
    CnAppend(xs, ys);
  }

  lemma GlueContains(p: string, t: string, z: string)
    requires t != ""
    ensures Contains(Glue(Glue(p, t), z), t)
  {
    var pre := if p == "" then "" else p + " ";
    var post := if z == "" then "" else " " + z;
    var s := pre + t + post;
    assert Glue(p, t) == pre + t;
    if z == "" {
      assert Glue(Glue(p, t), z) == s;
    } else {
      assert Glue(Glue(p, t), z) == (pre + t) + " " + z == s;
    }
    assert s[|pre|..|pre| + |t|] == t;
    assert OccursAt(s, t, |pre|);
  }

  /** An occurrence stays where it is when more text follows. */
  lemma OccursBefore(a: string, b: string, t: string, i: int)
    requires OccursAt(a, t, i)
    ensures OccursAt(a + b, t, i)
  {
    assert (a + b)[i..i + |t|] == a[i..i + |t|];
  }

  /** An occurrence moves right by the length of the text put in front. */
  lemma OccursAfter(a: string, b: string, t: string, j: int)
    requires OccursAt(b, t, j)
    ensures OccursAt(a + b, t, |a| + j)
  {
    assert (a + b)[|a| + j..|a| + j + |t|] == b[j..j + |t|];
  }

  /** Every truthy argument appears in the result: `true` as the text "true". */
  lemma CnKeepsTruthy(xs: seq<Arg>, a: Arg, zs: seq<Arg>)
    requires Truthy(a)
    ensures Contains(Cn(xs + [a] + zs), Text(a))
  {
    CnAppend(xs + [a], zs);
    CnAppend(xs, [a]);
    CnCons(a, []);
    GlueContains(Cn(xs), Text(a), Cn(zs));
  }

  /** Every truthy argument reaches the output of `cn` whole. */
  lemma CnKeepsArg(args: seq<Arg>, k: int)
    requires 0 <= k < |args| && Truthy(args[k])
    ensures Contains(Cn(args), Text(args[k]))
  {
    assert args == args[..k] + [args[k]] + args[k + 1..];
    CnKeepsTruthy(args[..k], args[k], args[k + 1..]);
  }

  /** `t` occurs in `s` at two different positions. */
  predicate OccursTwice(s: string, t: string) {
    exists i, j :: 0 <= i < j <= |s| && OccursAt(s, t, i) && OccursAt(s, t, j)
  }

  /** `filter(Boolean)` over two lists is the two filtered lists one after
      the other: order and repetitions are kept. */
  lemma {:induction false} KeptAppend(xs: seq<Arg>, ys: seq<Arg>)
    ensures Kept(xs + ys) == Kept(xs) + Kept(ys)
  {
    if xs != [] {
      assert (xs + ys)[0] == xs[0];
      assert (xs + ys)[1..] == xs[1..] + ys;
      KeptAppend(xs[1..], ys);
      if Truthy(xs[0]) {
        assert [xs[0]] + Kept(xs[1..]) + Kept(ys) == [xs[0]] + (Kept(xs[1..]) + Kept(ys));
      }
    } else {
      assert xs + ys == ys;
    }
  }

  /** `cn` never deduplicates: two truthy arguments with the same text, at
      any two positions, make that text occur twice in the output. */
  lemma CnTwice(args: seq<Arg>, j: int, k: int)
    requires 0 <= j < k < |args|
    requires Truthy(args[j]) && Truthy(args[k]) && Text(args[j]) == Text(args[k])
    ensures OccursTwice(Cn(args), Text(args[j]))
  {
    var t := Text(args[j]);
    var xs, ys := args[..k], args[k..];
    assert args == xs + ys;
    CnAppend(xs, ys);
    assert xs[j] == args[j];
    CnKeepsArg(xs, j);
    var i :| 0 <= i <= |Cn(xs)| && OccursAt(Cn(xs), t, i);
    CnStartsWith(ys);
    TwiceGlued(Cn(xs), Cn(ys), t, i);
  }

  /** The output of `cn` starts with its first argument when that is truthy. */
  lemma CnStartsWith(args: seq<Arg>)
    requires |args| > 0 && Truthy(args[0])
    ensures OccursAt(Cn(args), Text(args[0]), 0)
  {
    assert args == [args[0]] + args[1..];
    CnCons(args[0], args[1..]);
    GlueStartsWith(Text(args[0]), Cn(args[1..]));
  }

  lemma GlueStartsWith(t: string, rest: string)
    ensures OccursAt(Glue(t, rest), t, 0)
  {
    if t != "" && rest != "" {
      assert (t + " " + rest)[0..|t|] == t;
    }
  }

  /** A text that occurs in `a` and starts `b` occurs twice in the two glued. */
  lemma TwiceGlued(a: string, b: string, t: string, i: int)
    requires t != "" && OccursAt(a, t, i) && OccursAt(b, t, 0)
    ensures OccursTwice(Glue(a, b), t)
  {
    assert Glue(a, b) == a + (" " + b);
    OccursBefore(a, " " + b, t, i);
    assert (" " + b)[1..1 + |t|] == b[0..|t|];
    OccursAfter(a, " " + b, t, 1);
  }

  /** What one more argument adds after a non-empty class string: a space
      and its text when it is truthy, nothing otherwise. */
  function Appended(a: Arg): string
  {
    if Truthy(a) then " " + Text(a) else ""
  }

  /** A class that is added only when `cond` holds: one space and the
      class, or nothing. */
  function ClassIf(cond: bool, c: string): string
  {
    if cond then " " + c else ""
  }

  /** Adding an argument after a non-empty class list appends " " and its
      text exactly when the argument is truthy. */
  lemma CnSnoc(xs: seq<Arg>, a: Arg)
    requires Cn(xs) != ""
    ensures Cn(xs + [a]) == Cn(xs) + Appended(a)
  {
    CnAppend(xs, [a]);
    CnCons(a, []);
  }

  /** A single non-empty string argument comes back unchanged. */
  lemma CnOne(x: string)
    ensures Cn([S(x)]) == x
  {
    CnCons(S(x), []);
  }

  /** `cn` of a non-empty string followed by two arguments. */
  lemma CnThree(a: string, b: Arg, c: Arg)
    requires a != ""
    ensures Cn([S(a), b, c]) == a + Appended(b) + Appended(c)
  {
    CnOne(a);
    assert [S(a)] + [b] == [S(a), b];
    CnSnoc([S(a)], b);
    assert [S(a), b] + [c] == [S(a), b, c];
    CnSnoc([S(a), b], c);
  }

  /** `cn` of a non-empty string followed by three arguments. */
  lemma CnFour(a: string, b: Arg, c: Arg, d: Arg)
    requires a != ""
    ensures Cn([S(a), b, c, d]) == a + Appended(b) + Appended(c) + Appended(d)
  {
    CnThree(a, b, c);
    assert [S(a), b, c] + [d] == [S(a), b, c, d];
    CnSnoc([S(a), b, c], d);
  }

  /** The boolean `true` survives as its text "true"; `false` is dropped. */
  lemma CnBooleans(xs: seq<Arg>)
    ensures Cn([B(true)]) == "true"
    ensures Cn([B(false)] + xs) == Cn(xs)
  {
    CnCons(B(true), []);
    CnCons(B(false), xs);
  }

  /** `cn` never deduplicates: a class passed twice appears twice, one space apart. */
  lemma CnNoDedup(xs: seq<Arg>, c: string, zs: seq<Arg>)
    requires c != ""
    ensures Contains(Cn(xs + [S(c), S(c)] + zs), c + " " + c)
  {
    CnCons(S(c), [S(c)]);
    CnCons(S(c), []);
    assert Cn([S(c), S(c)]) == c + " " + c;
    CnFlatten(xs, [S(c), S(c)], zs);
    assert xs + [S(c), S(c)] + zs == xs + [S(c), S(c)] + zs;
    CnKeepsTruthy(xs, S(c + " " + c), zs);
  }

  lemma GlueWellSpaced(a: string, b: string)
    requires WellSpaced(a) && WellSpaced(b)
    ensures WellSpaced(Glue(a, b))
  {
    if a != "" && b != "" {
      var s := a + " " + b;
      forall i | 0 <= i < |s| - 1
        ensures !DoubleSpaceAt(s, i)
      {
        if i < |a| - 1 {
          assert s[i] == a[i] && s[i + 1] == a[i + 1];
          assert !DoubleSpaceAt(a, i);
        } else if i == |a| - 1 {
          assert s[i] == a[|a| - 1];
        } else if i == |a| {
          assert s[i + 1] == b[0];
        } else {
          var j := i - |a| - 1;
          assert s[i] == b[j] && s[i + 1] == b[j + 1];
          assert !DoubleSpaceAt(b, j);
        }
      }
    }
  }

  /** When every truthy argument is itself well spaced, so is the result of
      `cn`: no leading, trailing or doubled space is ever introduced. */
  lemma {:induction false} CnWellSpaced(args: seq<Arg>)
    requires forall i :: 0 <= i < |args| && Truthy(args[i]) ==> WellSpaced(Text(args[i]))
    ensures WellSpaced(Cn(args))
  {
    if args != [] {
      assert args == [args[0]] + args[1..];
      CnCons(args[0], args[1..]);
      CnWellSpaced(args[1..]);
      if Truthy(args[0]) {
        GlueWellSpaced(Text(args[0]), Cn(args[1..]));
      }
    }
  }

  lemma {:induction false} SplitWord(t: string, u: string)
    requires ' ' !in t
    ensures Split(t + u) == [t + Split(u)[0]] + Split(u)[1..]
  {
    var w := Split(u);
    if t == "" {
      assert t + u == u;
      assert t + w[0] == w[0];
      assert [w[0]] + w[1..] == w;
    } else {
      var c := t[0];
      assert c in t;
      assert (t + u)[0] == c;
      assert (t + u)[1..] == t[1..] + u;
      SplitWord(t[1..], u);
      var rest := Split(t[1..] + u);
      assert rest == [t[1..] + w[0]] + w[1..];
      assert rest[0] == t[1..] + w[0] && rest[1..] == w[1..];
      assert [c] + (t[1..] + w[0]) == t + w[0];
    }
  }

  /** Splitting a join of space-free parts at spaces gives the parts back. */
  lemma {:induction false} SplitJoin(ts: seq<string>)
    requires |ts| >= 1
    requires forall i :: 0 <= i < |ts| ==> ' ' !in ts[i]
    ensures Split(Join(ts)) == ts
  {
    if |ts| == 1 {
      SplitWord(ts[0], "");
      assert ts[0] + "" == ts[0];
    } else {
      var rest := Join(ts[1..]);
      assert Join(ts) == ts[0] + (" " + rest);
      SplitWord(ts[0], " " + rest);
      assert (" " + rest)[1..] == rest;
      SplitJoin(ts[1..]);
      assert Split(" " + rest) == [""] + ts[1..];
      assert ([""] + ts[1..])[1..] == ts[1..];
      assert ts[0] + "" == ts[0];
      assert [ts[0]] + ts[1..] == ts;
    }
  }

  /** Joining the pieces of a split gives the string back. */
  lemma {:induction false} JoinSplit(s: string)
    ensures Join(Split(s)) == s
  {
    if s != "" {
      var rest := Split(s[1..]);
      JoinSplit(s[1..]);
      if s[0] == ' ' {
        assert ([""] + rest)[1..] == rest;
      } else {
        var r := [[s[0]] + rest[0]] + rest[1..];
        if |rest| > 1 {
          assert r[1..] == rest[1..];
        }
      }
    }
  }

  /** With space-free truthy arguments and at least one of them, splitting
      the result of `cn` at spaces gives back exactly the kept arguments' texts. */
  lemma CnTokens(args: seq<Arg>)
    requires exists i :: 0 <= i < |args| && Truthy(args[i])
    requires forall i :: 0 <= i < |args| && Truthy(args[i]) ==> ' ' !in Text(args[i])
    ensures Split(Cn(args)) == Texts(Kept(args))
  {
    var kept := Kept(args);
    var ts := Texts(kept);
    forall i | 0 <= i < |ts|
      ensures ' ' !in ts[i]
    {
      var j :| 0 <= j < |args| && args[j] == kept[i];
    }
    SplitJoin(ts);
  }

  // ---------------------------------------------------------------------------
  // getStatusColor
  // ---------------------------------------------------------------------------

  /** `StatusType`. */
  datatype Status = Success | Warning | Info | Error | Completed | Pending | Review

  /** The string literal of each status. */
  function Key(s: Status): (k: string)
    ensures k != ""
  {
    match s
    case Success => "success"
    case Warning => "warning"
    case Info => "info"
    case Error => "error"
    case Completed => "completed"
    case Pending => "pending"
    case Review => "review"
  }

  /** `statusMap` inside `getStatusColor`, keyed by the status literals. */
  const StatusMap: map<string, string> := map[
    "success" := StatusSuccess,
    "completed" := StatusSuccess,
    "warning" := StatusWarning,
    "pending" := StatusWarning,
    "info" := StatusInfo,
    "review" := StatusInfo,
    "error" := StatusError
  ]

  /** `getStatusColor(status)`: `statusMap[status] || theme.colors.status.info`.
      The key is taken as a string, so that the fallback of an unmapped key
      is part of the model. */
  function GetStatusColor(status: string): (r: string)
    ensures r in {StatusSuccess, StatusWarning, StatusInfo, StatusError}
    ensures status !in StatusMap ==> r == StatusInfo
  {
    if status in StatusMap && StatusMap[status] != "" then StatusMap[status] else StatusInfo
  }

  /** The base status whose colour an alias shares. */
  function BaseStatus(s: Status): (b: Status)
    ensures b in {Success, Warning, Info, Error}
    ensures s in {Success, Warning, Info, Error} ==> b == s
  {
    match s
    case Completed => Success
    case Pending => Warning
    case Review => Info
    case _ => s
  }

  /** The table covers every status, so a typed caller never reaches the fallback. */
  lemma StatusMapTotal(s: Status)
    ensures Key(s) in StatusMap
    ensures GetStatusColor(Key(s)) == StatusMap[Key(s)]
  {
  }

  /** `completed`, `pending` and `review` borrow the colour of `success`,
      `warning` and `info`, and two statuses share a colour exactly when they
      have the same base status. */
  lemma StatusAliases(a: Status, b: Status)
    ensures GetStatusColor(Key(a)) == GetStatusColor(Key(BaseStatus(a)))
    ensures GetStatusColor(Key(a)) == GetStatusColor(Key(b)) <==> BaseStatus(a) == BaseStatus(b)
  {
  }

  /** The colour of each base status. */
  lemma StatusColors()
    ensures GetStatusColor(Key(Success)) == StatusSuccess
    ensures GetStatusColor(Key(Warning)) == StatusWarning
    ensures GetStatusColor(Key(Info)) == StatusInfo
    ensures GetStatusColor(Key(Error)) == StatusError
  {
  }

  // ---------------------------------------------------------------------------
  // presets
  // ---------------------------------------------------------------------------

  /** `cn` of arguments that are all truthy is their texts joined with single spaces. */
  lemma {:induction false} CnAllTruthy(args: seq<Arg>)
    requires forall i :: 0 <= i < |args| ==> Truthy(args[i])
    ensures Kept(args) == args
    ensures Cn(args) == Join(Texts(args))
  {
    if args != [] {
      CnAllTruthy(args[1..]);
      assert args == [args[0]] + args[1..];
    }
  }

  /** String arguments to `cn`, written as a list of strings. */
  function Words(ws: seq<string>): seq<Arg>
  {
    seq(|ws|, i requires 0 <= i < |ws| => S(ws[i]))
  }

  /** `cn` of non-empty strings is those strings, one space apart. */
  lemma CnWords(ws: seq<string>)
    requires "" !in ws
    ensures Cn(Words(ws)) == Join(ws)
  {
    CnAllTruthy(Words(ws));
    assert Texts(Words(ws)) == ws;
  }

  // Each preset is `cn` applied to the string arguments named after it.

  const CardBaseClasses := [BackgroundPrimary, RadiusLg, "border", BorderLight]
  const CardBase := Cn(Words(CardBaseClasses))

  const CardInteractiveClasses := [
    BackgroundPrimary, RadiusLg, "border", BorderLight,
    "hover:border-zinc-200", TransitionDefault, "hover:shadow-sm", "group"
  ]
  const CardInteractive := Cn(Words(CardInteractiveClasses))

  const CardDarkClasses := [BackgroundGradient, RadiusLg, TextInverse]
  const CardDark := Cn(Words(CardDarkClasses))

  const CardMutedClasses := [BackgroundSecondary, RadiusLg, "border", BorderDefault]
  const CardMuted := Cn(Words(CardMutedClasses))

  const ButtonPrimaryClasses := [
    BackgroundInverse, TextInverse, RadiusMd, "px-4 py-2",
    TextSm, FontMedium, "hover:bg-zinc-800", TransitionColors
  ]
  const ButtonPrimary := Cn(Words(ButtonPrimaryClasses))

  const ButtonSecondaryClasses := [
    BackgroundPrimary, TextPrimary, RadiusMd, "px-4 py-2",
    TextSm, FontMedium, "hover:bg-zinc-100", TransitionColors
  ]
  const ButtonSecondary := Cn(Words(ButtonSecondaryClasses))

  const ButtonGhostClasses := ["p-2.5", RadiusMd, "hover:bg-zinc-50", TransitionColors]
  const ButtonGhost := Cn(Words(ButtonGhostClasses))

  const InputBaseClasses := [
    "w-full", "px-4 py-2.5", BackgroundSecondary, "border", BorderDefault, RadiusMd, TextSm,
    "focus:outline-none focus:ring-2 focus:ring-zinc-900 focus:border-transparent",
    TransitionDefault
  ]
  const InputBase := Cn(Words(InputBaseClasses))

  const BadgeClasses := [TextXs, FontMedium, "px-2 py-1", RadiusFull]
  const BadgePreset := Cn(Words(BadgeClasses))

  const IconBoxClasses := ["p-2", BackgroundSecondary, RadiusMd, "group-hover:bg-zinc-100", TransitionColors]
  const IconBox := Cn(Words(IconBoxClasses))

  lemma JoinFour(a: string, b: string, c: string, d: string)
    ensures Join([a, b, c, d]) == a + " " + b + " " + c + " " + d
  {
    assert [a, b, c, d][1..] == [b, c, d];
    assert [b, c, d][1..] == [c, d];
    assert [c, d][1..] == [d];
    assert Join([c, d]) == c + " " + d;
    assert Join([b, c, d]) == b + " " + (c + " " + d);
    assert Join([a, b, c, d]) == a + " " + (b + " " + (c + " " + d));
  }

  lemma CardBaseJoined()
    ensures CardBase == "bg-white" + " " + "rounded-2xl" + " " + "border" + " " + "border-zinc-100"
  {
    CnWords(CardBaseClasses);
    JoinFour("bg-white", "rounded-2xl", "border", "border-zinc-100");
  }

  lemma CardBaseText()
    ensures "bg-white" + " " + "rounded-2xl" + " " + "border" + " " + "border-zinc-100"
      == "bg-white rounded-2xl border border-zinc-100"
  {
  }

  /** `presets.card.base`, exactly. */
  lemma CardBaseValue()
    ensures CardBase == "bg-white rounded-2xl border border-zinc-100"
  {
    CardBaseJoined();
    CardBaseText();
  }

  lemma BadgePresetJoined()
    ensures BadgePreset == "text-xs" + " " + "font-medium" + " " + "px-2 py-1" + " " + "rounded-full"
  {
    CnWords(BadgeClasses);
    JoinFour("text-xs", "font-medium", "px-2 py-1", "rounded-full");
  }

  lemma BadgePresetText()
    ensures "text-xs" + " " + "font-medium" + " " + "px-2 py-1" + " " + "rounded-full"
      == "text-xs font-medium px-2 py-1 rounded-full"
  {
  }

  /** `presets.badge`, exactly. */
  lemma BadgePresetValue()
    ensures BadgePreset == "text-xs font-medium px-2 py-1 rounded-full"
  {
    BadgePresetJoined();
    BadgePresetText();
  }

  /** `presets.card.interactive`: its class texts, one space apart. */
  lemma CardInteractiveValue()
    ensures CardInteractive == Join(["bg-white", "rounded-2xl", "border", "border-zinc-100",
      "hover:border-zinc-200", "transition-all duration-200", "hover:shadow-sm", "group"])
  {
    CnWords(CardInteractiveClasses);
  }

  /** `presets.card.dark`: its class texts, one space apart. */
  lemma CardDarkValue()
    ensures CardDark == Join(["bg-gradient-to-br from-zinc-900 to-zinc-800", "rounded-2xl", "text-white"])
  {
    CnWords(CardDarkClasses);
  }

  /** `presets.card.muted`: its class texts, one space apart. */
  lemma CardMutedValue()
    ensures CardMuted == Join(["bg-zinc-50", "rounded-2xl", "border", "border-zinc-200"])
  {
    CnWords(CardMutedClasses);
  }

  /** `presets.button.primary`: its class texts, one space apart. */
  lemma ButtonPrimaryValue()
    ensures ButtonPrimary == Join(["bg-zinc-900", "text-white", "rounded-xl", "px-4 py-2",
      "text-sm", "font-medium", "hover:bg-zinc-800", "transition-colors duration-200"])
  {
    CnWords(ButtonPrimaryClasses);
  }

  /** `presets.button.secondary`: its class texts, one space apart. */
  lemma ButtonSecondaryValue()
    ensures ButtonSecondary == Join(["bg-white", "text-zinc-900", "rounded-xl", "px-4 py-2",
      "text-sm", "font-medium", "hover:bg-zinc-100", "transition-colors duration-200"])
  {
    CnWords(ButtonSecondaryClasses);
  }

  /** `presets.button.ghost`: its class texts, one space apart. */
  lemma ButtonGhostValue()
    ensures ButtonGhost == Join(["p-2.5", "rounded-xl", "hover:bg-zinc-50", "transition-colors duration-200"])
  {
    CnWords(ButtonGhostClasses);
  }

  /** `presets.input.base`: its class texts, one space apart. */
  lemma InputBaseValue()
    ensures InputBase == Join(["w-full", "px-4 py-2.5", "bg-zinc-50", "border", "border-zinc-200",
      "rounded-xl", "text-sm", "focus:outline-none focus:ring-2 focus:ring-zinc-900 focus:border-transparent",
      "transition-all duration-200"])
  {
    CnWords(InputBaseClasses);
  }

  /** `presets.iconBox`: its class texts, one space apart. */
  lemma IconBoxValue()
    ensures IconBox == Join(["p-2", "bg-zinc-50", "rounded-xl", "group-hover:bg-zinc-100",
      "transition-colors duration-200"])
  {
    CnWords(IconBoxClasses);
  }

  /** A preset begins with its first class. */
  lemma PresetHead(ws: seq<string>)
    requires "" !in ws && |ws| > 0
    ensures |ws[0]| <= |Cn(Words(ws))| && Cn(Words(ws))[..|ws[0]|] == ws[0]
  {
    CnWords(ws);
    JoinHead(ws);
  }

  lemma JoinHead(ws: seq<string>)
    requires |ws| > 0
    ensures |ws[0]| <= |Join(ws)| && Join(ws)[..|ws[0]|] == ws[0]
  {
    if |ws| > 1 {
      var rest := " " + Join(ws[1..]);
      assert Join(ws) == ws[0] + rest;
      assert (ws[0] + rest)[..|ws[0]|] == ws[0];
    }
  }

  /** A character of a preset's first class is the same character of the preset. */
  lemma PresetChar(ws: seq<string>, k: int)
    requires "" !in ws && |ws| > 0 && 0 <= k < |ws[0]|
    ensures k < |Cn(Words(ws))| && Cn(Words(ws))[k] == ws[0][k]
  {
    PresetHead(ws);
    assert Cn(Words(ws))[..|ws[0]|][k] == ws[0][k];
  }

  /** A preset whose class list starts with another preset's classes is that
      preset, a space, and the extra classes. */
  lemma PresetExtends(ws: seq<string>, more: seq<string>)
    requires "" !in ws && "" !in more && |ws| > 0 && |more| > 0
    ensures Cn(Words(ws + more)) == Cn(Words(ws)) + " " + Cn(Words(more))
  {
    assert Words(ws + more) == Words(ws) + Words(more);
    CnAppend(Words(ws), Words(more));
    PresetNonEmpty(ws);
    PresetNonEmpty(more);
  }

  /** `presets.card.interactive` is `presets.card.base` with the hover,
      transition and group classes after it. */
  lemma CardInteractiveExtendsBase()
    ensures CardInteractive == CardBase + " "
      + Cn(Words(["hover:border-zinc-200", TransitionDefault, "hover:shadow-sm", "group"]))
  {
    assert CardInteractiveClasses
      == CardBaseClasses + ["hover:border-zinc-200", TransitionDefault, "hover:shadow-sm", "group"];
    PresetExtends(CardBaseClasses, ["hover:border-zinc-200", TransitionDefault, "hover:shadow-sm", "group"]);
  }

  /** A preset whose first class is non-empty is a non-empty class string. */
  lemma PresetNonEmpty(ws: seq<string>)
    requires |ws| > 0 && ws[0] != ""
    ensures Cn(Words(ws)) != ""
  {
    assert Truthy(Words(ws)[0]);
  }
}
