# Class-string layer of the dashboard UI template

The template styles every component with Tailwind class strings. This project
models the part of it that computes those strings. The model covers:

- the `theme` design tokens;
- the `cn` combinator, `classes.filter(Boolean).join(' ')`;
- the status-to-colour table `getStatusColor`;
- the `presets` built from the tokens with `cn`;
- the way `Badge`, `Input`, `Card` and `Button` turn their props into
  `className` strings and, for `Input`, an element id.

Everything modelled is pure, so it is written as datatypes, functions and
lemmas.

Modules, one file each:

- `Js` (`js.dfy`): the JavaScript semantics the code relies on. It covers:
  - optional props (`undefined` is `None`);
  - the values `cn` accepts (`S`, `B`, `Nil`);
  - truthiness and the text `join` writes for a value;
  - `||`, `&&` and destructuring defaults.
- `Styles` (`styles.dfy`): the tokens, `cn`, `getStatusColor` and the
  presets. Two reference readings of a class string are proved against `cn`:
  - `Split`, the string's `split(' ')`;
  - `WellSpaced`: no leading, trailing or doubled space.
- `Badge`, `Card`, `Button` (`badge.dfy`, `card.dfy`, `button.dfy`): each
  component's class string.
- `Input` (`input.dfy`): the input's id, its classes, and the element tree it
  renders, reduced to the attributes the component sets. `htmlFor`, `id`,
  the class strings and the conditional parts are kept.

## Model

| member | source | states |
|---|---|---|
| `Js.Text` | src/lib/styles.ts:122 | a truthy value is written as non-empty text |
| `Js.OptArg` | src/components/ui/badge.tsx:12 | an optional string prop is truthy exactly when it is given and non-empty, and then it is written as itself |
| `Js.Or` | src/components/ui/badge.tsx:31 | `o \|\| fallback` is truthy exactly when one of its operands is, and is always one of them |
| `Js.And` | src/components/ui/button.tsx:48 | `flag && s` is truthy exactly when the flag is `true` and `s` is non-empty, and is then `s` |
| `Styles.Kept` | src/lib/styles.ts:122 | `filter(Boolean)` keeps exactly the truthy arguments and never adds any |
| `Styles.KeptAppend` | src/lib/styles.ts:122 | filtering two lists one after the other is filtering each, in order: order and repetitions are kept |
| `Styles.Texts` | src/lib/styles.ts:122 | `join` writes each kept element as its text |
| `Styles.Join` | src/lib/styles.ts:122 | `join(' ')` is empty only for no parts or a single empty part |
| `Styles.Cn` | src/lib/styles.ts:121-123 | `cn` returns `""` exactly when no argument is truthy |
| `Styles.CnCons` | src/lib/styles.ts:122 | a falsy first argument is dropped; a truthy one is glued in front of the rest with one space |
| `Styles.CnAppend` | src/lib/styles.ts:122 | `cn(xs ++ ys)` is `cn(xs)` and `cn(ys)` glued: the kept arguments stay in argument order |
| `Styles.CnSingleTruthy` | src/lib/styles.ts:122 | with exactly one truthy argument, a string, `cn` returns that string unchanged |
| `Styles.CnOne` | src/lib/styles.ts:122 | one string argument comes back as itself |
| `Styles.CnFlatten` | src/lib/styles.ts:122 | `cn(a, cn(b, c), d) == cn(a, b, c, d)`; an empty inner result is dropped |
| `Styles.CnKeepsTruthy` | src/lib/styles.ts:121-122 | every truthy argument's text occurs in the output, including `"true"` for `true` |
| `Styles.CnKeepsArg` | src/lib/styles.ts:122 | the same, stated for the k-th argument of any argument list |
| `Styles.CnBooleans` | src/lib/styles.ts:121-122 | `cn(true)` is `"true"`; a `false` argument changes nothing |
| `Styles.CnNoDedup` | src/lib/styles.ts:122 | a class passed twice in a row appears twice, one space apart |
| `Styles.CnTwice` | src/lib/styles.ts:122 | two truthy arguments with the same text, at any two positions, make that text occur at two positions of the output |
| `Styles.CnStartsWith` | src/lib/styles.ts:122 | the output starts with the first argument's text when that argument is truthy |
| `Styles.CnSnoc` | src/lib/styles.ts:122 | appending an argument after a non-empty result appends a space and its text when it is truthy, and nothing otherwise |
| `Styles.CnThree` | src/lib/styles.ts:122 | `cn(a, b, c)` with non-empty `a` is `a` followed by what `b` and `c` add |
| `Styles.CnFour` | src/lib/styles.ts:122 | `cn(a, b, c, d)` with non-empty `a` is `a` followed by what `b`, `c` and `d` add |
| `Styles.CnWellSpaced` | src/lib/styles.ts:122 | when the truthy arguments are well spaced, the output has no leading, trailing or doubled space |
| `Styles.SplitJoin` | src/lib/styles.ts:122 | splitting a join of space-free parts at spaces gives back the parts |
| `Styles.JoinSplit` | src/lib/styles.ts:122 | joining the pieces of a split gives back the string |
| `Styles.CnTokens` | src/lib/styles.ts:121-123 | for space-free arguments, the output split at spaces is exactly the kept arguments' texts, in order |
| `Styles.Key` | src/lib/styles.ts:128 | every status literal is non-empty, so a given status is truthy |
| `Styles.GetStatusColor` | src/lib/styles.ts:130-141 | the colour is always one of the four status colours, and an unmapped key gets the info colour |
| `Styles.BaseStatus` | src/lib/styles.ts:131-139 | every status has one of the four base statuses, and a base status is its own base |
| `Styles.StatusMapTotal` | src/lib/styles.ts:130-140 | the table covers every status, so the fallback is never reached for a typed status |
| `Styles.StatusAliases` | src/lib/styles.ts:131-140 | `completed`, `pending` and `review` share the colours of `success`, `warning` and `info`; two statuses share a colour exactly when they have the same base status |
| `Styles.StatusColors` | src/lib/styles.ts:37-42 | each base status gets its own colour from the theme |
| `Styles.CnAllTruthy` | src/lib/styles.ts:122 | when every argument is truthy, none is dropped and the output is their texts joined |
| `Styles.CnWords` | src/lib/styles.ts:150-243 | a preset of non-empty classes is those classes, one space apart |
| `Styles.CardBaseValue` | src/lib/styles.ts:153-158 | `presets.card.base` is exactly `"bg-white rounded-2xl border border-zinc-100"` |
| `Styles.BadgePresetValue` | src/lib/styles.ts:228-233 | `presets.badge` is exactly `"text-xs font-medium px-2 py-1 rounded-full"` |
| `Styles.CardInteractiveValue` | src/lib/styles.ts:159-168 | `presets.card.interactive` is its eight classes, one space apart |
| `Styles.CardDarkValue` | src/lib/styles.ts:169-173 | `presets.card.dark` is its three classes, one space apart |
| `Styles.CardMutedValue` | src/lib/styles.ts:174-179 | `presets.card.muted` is its four classes, one space apart |
| `Styles.ButtonPrimaryValue` | src/lib/styles.ts:184-193 | `presets.button.primary` is its eight classes, one space apart |
| `Styles.ButtonSecondaryValue` | src/lib/styles.ts:194-203 | `presets.button.secondary` is its eight classes, one space apart |
| `Styles.ButtonGhostValue` | src/lib/styles.ts:204-209 | `presets.button.ghost` is its four classes, one space apart |
| `Styles.InputBaseValue` | src/lib/styles.ts:214-224 | `presets.input.base` is its nine classes, one space apart |
| `Styles.IconBoxValue` | src/lib/styles.ts:236-242 | `presets.iconBox` is its five classes, one space apart |
| `Styles.PresetNonEmpty` | src/lib/styles.ts:150-243 | a preset whose first class is non-empty is non-empty |
| `Styles.PresetHead` | src/lib/styles.ts:150-243 | a preset begins with its first class |
| `Styles.PresetExtends` | src/lib/styles.ts:150-243 | a preset whose classes start with another preset's classes is that preset, a space, and the rest |
| `Styles.CardInteractiveExtendsBase` | src/lib/styles.ts:153-168 | `presets.card.interactive` is `presets.card.base` followed by the hover, transition and group classes |
| `Badge.ColorClass` | src/components/ui/badge.tsx:31 | the colour class is never empty |
| `Badge.ClassName` | src/components/ui/badge.tsx:34 | the class string is the badge preset, one space, the colour, then `" " + className` only when `className` is non-empty |
| `Badge.ColorPrecedence` | src/components/ui/badge.tsx:31 | a non-empty custom colour overrides the status; without it the status colour is used; with neither, `bg-zinc-100 text-zinc-700` |
| `Badge.EmptyColorIsAbsent` | src/components/ui/badge.tsx:31 | an empty custom colour gives the same badge as no custom colour |
| `Badge.StatusBadge` | src/components/ui/badge.tsx:31-34 | a status badge is coloured by a status colour, and an alias looks exactly like its base status |
| `Card.VariantClass` | src/components/ui/card.tsx:32-37 | every variant selects a non-empty preset |
| `Card.PaddingClass` | src/components/ui/card.tsx:39-44 | the padding class is empty exactly for `padding='none'` |
| `Card.ClassName` | src/components/ui/card.tsx:47 | the class string is the variant preset, then the padding class and `className`, each with one space in front and only when non-empty |
| `Card.DefaultCard` | src/components/ui/card.tsx:27-28 | with the defaults, a card is `presets.card.base + " p-6"` |
| `Card.VariantsDistinct` | src/components/ui/card.tsx:32-37 | two variants select the same classes only when they are the same variant |
| `Card.PaddingsDistinct` | src/components/ui/card.tsx:39-44 | two paddings select the same class only when they are the same padding |
| `Card.NoPaddingAddsNothing` | src/components/ui/card.tsx:41-47 | `padding='none'` leaves the preset followed only by the extra classes, so no double or trailing space appears |
| `Card.ClassOrder` | src/components/ui/card.tsx:47 | the order is variant, padding, `className`; an absent or empty `className` adds no trailing space |
| `Button.VariantClass` | src/components/ui/button.tsx:31-35 | every variant selects a non-empty preset |
| `Button.SizeClass` | src/components/ui/button.tsx:37-41 | every size selects a non-empty class string |
| `Button.Compose` | src/components/ui/button.tsx:45-50 | `cn(base, size, fullWidth && 'w-full', className)` is the base and the size classes one space apart, then ` w-full` when `fullWidth` is `true`, then the extra classes |
| `Button.ClassName` | src/components/ui/button.tsx:45-50 | the button's class string, in the closed form that `Compose` gives |
| `Button.DefaultButton` | src/components/ui/button.tsx:24-25 | with the defaults, a button is the primary preset followed by `px-4 py-2 text-sm` |
| `Button.FullWidthFalse` | src/components/ui/button.tsx:48 | `fullWidth={false}` gives the same classes as no `fullWidth` |
| `Button.FullWidthPosition` | src/components/ui/button.tsx:45-50 | ` w-full` follows the size classes and comes before `className`, exactly when `fullWidth` is `true` |
| `Button.PresetAndSizeBothKept` | src/components/ui/button.tsx:45-50 | the preset and the size classes always reach the button whole, and `w-full` does under `fullWidth` |
| `Button.PresetPaddingKept` | src/lib/styles.ts:184-203 | the primary and secondary presets contain `px-4 py-2` and `text-sm` |
| `Button.TwiceIn` | src/components/ui/button.tsx:45-50 | a class in both the preset and the size classes occurs at two positions of the class string |
| `Button.DuplicateClasses` | src/components/ui/button.tsx:39-50 | a primary or secondary medium button carries `px-4 py-2` and `text-sm` twice each |
| `Button.VariantsDistinct` | src/components/ui/button.tsx:31-35 | two variants select the same preset only when they are the same variant |
| `Button.SizesDistinct` | src/components/ui/button.tsx:37-41 | two sizes select the same classes only when they are the same size |
| `Input.LowerChar` | src/components/ui/input.tsx:36 | ASCII capitals become the matching lower-case letter; every other character is unchanged |
| `Input.ToLowerCase` | src/components/ui/input.tsx:36 | lower-casing keeps the length and lowers each character |
| `Input.ReplaceWhitespace` | src/components/ui/input.tsx:36 | `replace(/\s/g, '-')` keeps the length and turns exactly the white-space characters into hyphens |
| `Input.Slug` | src/components/ui/input.tsx:36 | the derived id has the label's length and no white space or capital; white space becomes `-` and other characters are lowered |
| `Input.SlugOfSlug` | src/components/ui/input.tsx:36 | a label that is already lower case and free of white space is its own id |
| `Input.SlugIdempotent` | src/components/ui/input.tsx:36 | deriving an id from a derived id changes nothing |
| `Input.InputId` | src/components/ui/input.tsx:36 | a non-empty `id` is used verbatim; otherwise with no label there is no id, and with a label the id is the label lowered with its white space turned into `-`, of the label's length and free of white space |
| `Input.LabelClassValue` | src/components/ui/input.tsx:43 | the label's classes are `text-sm font-medium text-zinc-900 block mb-1.5` |
| `Input.When` | src/components/ui/input.tsx:58-60 | `cond ? s : ''` is truthy exactly when the condition holds and `s` is non-empty |
| `Input.ComposeInput` | src/components/ui/input.tsx:56-61 | the `cn` of the input is the base followed by each conditional class whose condition holds |
| `Input.AppendedWhen` | src/components/ui/input.tsx:58-60 | a taken ternary adds a space and its class; one not taken adds nothing |
| `Input.InputClass` | src/components/ui/input.tsx:56-61 | the input preset, then `pl-10` exactly with a left addon, `pr-10` exactly with a right addon, and the red border and ring exactly under `error`, in that order |
| `Input.HelperColor` | src/components/ui/input.tsx:75 | the helper colour is `text-red-600` exactly under `error`, and the muted text colour otherwise |
| `Input.HelperClass` | src/components/ui/input.tsx:72-76 | the helper classes are `text-xs mt-1.5` and the helper colour |
| `Input.AddonSlot` | src/components/ui/input.tsx:49-53 | the addon box is rendered exactly for a truthy addon; a `0` addon renders as the text `0` |
| `Input.Render` | src/components/ui/input.tsx:39-80 | the outer `div` gets `className` verbatim; the label renders exactly for a non-empty label, pointing at the input's id; the addon boxes render exactly for truthy addons; the input gets the id and its classes; the helper text renders exactly for non-empty helper text |
| `Input.LabelPointsAtInput` | src/components/ui/input.tsx:42-55 | a rendered label's `htmlFor` is the input's `id`, which is then present and non-empty |
| `Input.InputClassExtendsBase` | src/components/ui/input.tsx:56-61 | the input's classes always begin with the input preset |
| `Input.ErrorBorder` | src/components/ui/input.tsx:60 | under `error` the input's classes contain `border-red-300 focus:ring-red-500` |
| `Input.ErrorHelper` | src/components/ui/input.tsx:72-76 | the helper text is `text-xs mt-1.5 text-red-600` exactly under `error` |
| `Input.FalsyAddons` | src/components/ui/input.tsx:49-68 | a falsy addon adds no padding class, like a missing one; only a `0` addon shows, as the text `0` |
| `Input.InputClassFrom` | src/components/ui/input.tsx:56-61 | the input's classes depend only on the truthiness of the addons and on the error flag |

## Left out

- The JSX trees themselves, DOM rendering and React: `children`, the `...props` spread onto `<button>`/`<input>`, icons and event handlers. Only the attributes the components compute are modelled. For `Input` that is a small element tree.
- The `theme` groups `spacing`, `gap`, `shadow` and `colors.accent`, which no modelled code reads. They are plain string literals with no behaviour. The text, font, radius, transition, border, background and status groups are declared in full, including entries no modelled code reads.
- `getStatusColor` is modelled on a string key. `statusMap[status]` on a real JavaScript object would also find inherited keys such as `constructor`. The model treats all such keys as unmapped, which gives them the info colour.
- Input.LowerChar: lowers only the ASCII letters. `String.prototype.toLowerCase` applies full Unicode case mapping, which lowers other letters too. It can even lengthen the string (`İ` becomes two code units). For labels with non-ASCII capitals, the lengths and characters stated by `Input.Slug` and `Input.InputId` are therefore those of the ASCII mapping.
- Input.Render: reduces a `React.ReactNode` addon to five kinds (`Addon`):
  - an element;
  - a string;
  - a number;
  - a boolean;
  - nothing.

  `NaN` and other non-zero-but-falsy values are not distinguished from `0`.
- The exact literal value is proved only for `presets.card.base` and `presets.badge`. These are `Styles.CardBaseValue` and `Styles.BadgePresetValue`.
- Styles.CardInteractiveValue: states the preset as `Join` of its literal classes rather than as one literal string, because comparing long string literals is beyond the resource limit of these proofs; `Join` of the listed classes denotes the same string.
- Styles.CardDarkValue: states the preset as `Join` of its literal classes rather than as one literal string, because comparing long string literals is beyond the resource limit of these proofs; `Join` of the listed classes denotes the same string.
- Styles.CardMutedValue: states the preset as `Join` of its literal classes rather than as one literal string, because comparing long string literals is beyond the resource limit of these proofs; `Join` of the listed classes denotes the same string.
- Styles.ButtonPrimaryValue: states the preset as `Join` of its literal classes rather than as one literal string, because comparing long string literals is beyond the resource limit of these proofs; `Join` of the listed classes denotes the same string.
- Styles.ButtonSecondaryValue: states the preset as `Join` of its literal classes rather than as one literal string, because comparing long string literals is beyond the resource limit of these proofs; `Join` of the listed classes denotes the same string.
- Styles.ButtonGhostValue: states the preset as `Join` of its literal classes rather than as one literal string, because comparing long string literals is beyond the resource limit of these proofs; `Join` of the listed classes denotes the same string.
- Styles.InputBaseValue: states the preset as `Join` of its literal classes rather than as one literal string, because comparing long string literals is beyond the resource limit of these proofs; `Join` of the listed classes denotes the same string.
- Styles.IconBoxValue: states the preset as `Join` of its literal classes rather than as one literal string, because comparing long string literals is beyond the resource limit of these proofs; `Join` of the listed classes denotes the same string.
- The search input's focus state, the navigation list's active-link test, the pages, layouts, configuration files and static data. They are outside the class-string layer.
- The components that import names the style and type modules do not define. What those names stand for is not part of this model.
- The floating-point trend display of the stat card is not part of this model.
