# Design-system components and coverage badges, modelled in Dafny

This project models the logic of a small React design system and of its
coverage-badge script.

- **Components.** Seven presentational components (Button, Card, Badge,
  Icon, Container, Heading, Text) turn typed props into an ordered list of
  optional Tailwind class fragments. Each one applies its prop defaults
  first. It hands that list to `cn`, with the caller's `className` as the
  last argument. The model proves what that list is: its order, which
  fragment is present for which prop, and the table entries it draws on.
- **Design-system utilities.** These are the tables of
  `src/lib/design-system-utils.ts` (`sizeMap`, `colorVariants`,
  `typographySize`, `fontWeight`, `spacing`) and the helpers beside them
  (`when`, `createVariants`, `responsive`, `getDesignToken`).
- **Prop types.** The enumerations of `src/components/ui/types.ts` become
  Dafny datatypes. A component can therefore only be given values the type
  allows.
- **Coverage-badge script.** This covers the colour ladder, the Shields.io
  static-badge URL with its escaping (whitespace runs to `_`, `-` to `--`,
  `%` to `%25`), and the tally of a coverage report. The tally is an
  imperative method whose eight counters are proved equal to a recursive
  specification. It also covers the four percentages and the badges built
  from them.

Modules:
- `UiTypes`: the prop types.
- `DesignSystem`: the tables and helpers.
- `ClassList`: a class fragment (`Classes(tokens)`, or `Off` for a falsy
  entry) and a `CnCall`, which is exactly the arguments `cn(baseClasses,
  className)` receives.
- `Button`, `Card`, `Badge`, `Icon`, `Container`, `Heading`, `Text`: one
  module per component. `Typography` holds the fragment list that Heading
  and Text share.
- `CoverageBadge`: the coverage-badge script.
- Helper modules: `Wrappers` (Option), `Strings` (prefixes, `join`,
  `split`) and `Decimal` (`${n}` for integers a JavaScript number holds
  exactly, with a parser as its inverse).

A class string such as `'text-xs px-2 py-1'` is modelled as its token
sequence `["text-xs", "px-2", "py-1"]`. The string is those tokens joined
by single spaces.

## Model

| member | source | states |
|---|---|---|
| UiTypes.SizesEnumerated | src/components/ui/types.ts:11 | every size is one of xs, sm, md, lg, xl, and distinct sizes have distinct keys |
| UiTypes.ColorsEnumerated | src/components/ui/types.ts:14 | every colour variant is one of the six, and distinct variants have distinct keys |
| UiTypes.MaxWidthKeysDistinct | src/components/ui/types.ts:87 | the six container widths sm, md, lg, xl, 2xl, full have distinct keys |
| DesignSystem.SizeMap | src/lib/design-system-utils.ts:17-23 | each size maps to exactly three tokens: the typography size, then a `px-` token, then a `py-` token |
| DesignSystem.TypographySize | src/lib/design-system-utils.ts:84-90 | `md` maps to `text-base` and every other size `s` to `text-s` |
| DesignSystem.TextColorClass | src/lib/design-system-utils.ts:63-70 | the text colour is `text-<hue>-600`, except neutral, which is `text-neutral-900` |
| DesignSystem.BackgroundClass | src/lib/design-system-utils.ts:71-78 | the background is `bg-<hue>-50` for every colour variant |
| DesignSystem.FontWeightClass | src/lib/design-system-utils.ts:95-100 | weight `w` maps to `font-w` |
| DesignSystem.SpacingClass | src/lib/design-system-utils.ts:105-111 | every spacing entry is a `gap-` token |
| DesignSystem.ButtonColorSurface | src/lib/design-system-utils.ts:29-61 | a button entry has an unprefixed `bg-` token iff its variant is solid, and a `border-` token iff its variant is outline |
| DesignSystem.SolidSurface | src/lib/design-system-utils.ts:30-37 | solid entries carry a `bg-` token and no `border-` token |
| DesignSystem.OutlineSurface | src/lib/design-system-utils.ts:38-45 | outline entries carry a `border-` token and no unprefixed `bg-` token |
| DesignSystem.QuietSurface | src/lib/design-system-utils.ts:46-61 | ghost and link entries carry neither an unprefixed `bg-` nor a `border-` token |
| DesignSystem.ButtonColorFocusRing | src/lib/design-system-utils.ts:29-61 | all 24 button entries have three or four tokens and end with `focus:ring-<hue>-500` for their colour |
| DesignSystem.SolidRing | src/lib/design-system-utils.ts:30-37 | solid entries have four tokens, the last being the colour's focus ring |
| DesignSystem.OutlineRing | src/lib/design-system-utils.ts:38-45 | outline entries have four tokens, the last being the colour's focus ring |
| DesignSystem.GhostRing | src/lib/design-system-utils.ts:46-53 | ghost entries have three tokens, the last being the colour's focus ring |
| DesignSystem.LinkRing | src/lib/design-system-utils.ts:54-61 | link entries have three tokens, the last being the colour's focus ring |
| DesignSystem.When | src/lib/design-system-utils.ts:157-159 | `when(c, s)` is `s` when `c` holds and the empty string otherwise |
| DesignSystem.CreateVariants | src/lib/design-system-utils.ts:150-152 | `createVariants` returns its argument unchanged |
| DesignSystem.Piece | src/lib/design-system-utils.ts:138-141 | the `base` breakpoint contributes its value bare; any other breakpoint contributes `bp:value` |
| DesignSystem.Pieces | src/lib/design-system-utils.ts:137-141 | one piece per entry, in entry order |
| DesignSystem.Responsive | src/lib/design-system-utils.ts:135-145 | a plain string is returned unchanged; a breakpoint map gives its pieces joined by single spaces |
| DesignSystem.ResponsivePieces | src/lib/design-system-utils.ts:137-142 | splitting the result of `responsive` on spaces gives back exactly the pieces, when no key or value contains a space |
| DesignSystem.Lookup | src/lib/design-system-utils.ts:127-129 | `obj?.[key]` is defined iff `obj` is a defined group that has `key`, and then it is that member |
| DesignSystem.WalkUndefined | src/lib/design-system-utils.ts:126-130 | once the walk is undefined, every further key leaves it undefined without failing |
| DesignSystem.WalkConcat | src/lib/design-system-utils.ts:127-129 | walking a path is walking its first part and then the rest, one key at a time |
| DesignSystem.MissingKeyIsFinal | src/lib/design-system-utils.ts:126-130 | if some prefix of the path is undefined, the whole lookup is undefined |
| DesignSystem.GetDesignTokenPath | src/lib/design-system-utils.ts:126-127 | `getDesignToken` on the dot-join of dot-free keys walks exactly those keys |
| Strings.Split | src/lib/design-system-utils.ts:127 | `split` returns at least one piece, and no piece contains the separator |
| Strings.JoinSplit | src/lib/design-system-utils.ts:127 | joining the pieces of a split with the separator gives back the original string |
| Strings.SplitJoin | src/lib/design-system-utils.ts:142 | splitting a join of separator-free pieces gives back the pieces |
| Strings.SplitAfterWord | src/lib/design-system-utils.ts:127 | a separator-free word at the front merges into the first piece of the split |
| ClassList.Gate | src/components/ui/button/Button.tsx:38-44 | `cond && 'classes'` passes the classes iff the condition holds, and is falsy otherwise |
| Button.ColorFragment | src/components/ui/button/Button.tsx:36 | the colour fragment is the table entry for (variant, colour), so the `solid.primary` fallback is never taken |
| Button.ClassFragments | src/components/ui/button/Button.tsx:27-45 | the ten fragments in order: base, focus ring, transition, size, colour, then the disabled, loading, full-width, outline and link gates |
| Button.Render | src/components/ui/button/Button.tsx:13-82 | defaults are applied; native `disabled` and `aria-disabled` both equal `disabled \|\| loading`; the spinner is shown iff loading; `className` and `onClick` pass through |
| Button.DefaultButton | src/components/ui/button/Button.tsx:13-19 | a Button with no props is a solid, md, primary, enabled `button`-typed button with `text-base px-4 py-2` and the green solid colour |
| Button.StateClasses | src/components/ui/button/Button.tsx:38-40 | the disabled tokens are passed iff `disabled`, `cursor-wait` iff `loading`, `w-full` iff `fullWidth` |
| Button.SizeAndColorAreNotFlags | src/components/ui/button/Button.tsx:34-44 | the size and colour fragments never equal a state or variant-extra fragment |
| Button.VariantExtras | src/components/ui/button/Button.tsx:42-44 | `border` is passed iff the variant is outline, and the underline tokens iff it is link |
| Button.LoadingIsDisabledWithoutDisabledLook | src/components/ui/button/Button.tsx:38-55 | a loading button that is not disabled is natively and ARIA-disabled and shows the spinner, but does not get the disabled tokens |
| Button.StartTrialButton | components/landing/HeroSection.test.tsx:91-92 | the hero's primary button passes `bg-green-600` and, after it, the caller's `transform hover:scale-105` |
| Card.VariantClasses | src/components/ui/card/Card.tsx:23-27 | each variant maps to three or four tokens, the first a `bg-` token |
| Card.PaddingClasses | src/components/ui/card/Card.tsx:29-35 | each padding size maps to a single `p-` token |
| Card.ClassFragments | src/components/ui/card/Card.tsx:37-48 | five fragments in order: `rounded-lg`, variant, padding, then the hover and focus-ring gates on `interactive` |
| Card.OnKeyDown | src/components/ui/card/Card.tsx:59-64 | the handler calls `onClick` and prevents the default exactly for `Enter` and `' '` |
| Card.Render | src/components/ui/card/Card.tsx:13-66 | `role="button"`, `tabIndex=0` and the handlers are attached iff the card is interactive and given `onClick`; `className` passes through |
| Card.KeyboardActivation | src/components/ui/card/Card.tsx:55-64 | a key activates a rendered card iff the card is interactive, has `onClick`, and the key is Enter or Space |
| Card.InteractiveClasses | src/components/ui/card/Card.tsx:45-47 | the hover and focus-ring fragments are passed iff the card is interactive |
| Card.DefaultCard | src/components/ui/card/Card.tsx:13-15 | a Card with no props is elevated with `p-6` padding and no interaction |
| Badge.SizeClasses | src/components/ui/badge/Badge.tsx:28-34 | each size entry is a `px-`, a `py-` and a `text-` token |
| Badge.VariantClasses | src/components/ui/badge/Badge.tsx:36-61 | all 18 (variant, colour) entries are defined: outline entries have four tokens, the others two |
| Badge.ClassFragments | src/components/ui/badge/Badge.tsx:63-70 | three fragments in order: base, size, then the single variant-by-colour entry |
| Badge.Render | src/components/ui/badge/Badge.tsx:19-75 | defaults solid, primary, sm are applied; `className` passes through |
| Badge.SolidEntry | src/components/ui/badge/Badge.tsx:37-44 | solid entries are a `bg-` token followed by `text-white` |
| Badge.OutlineEntry | src/components/ui/badge/Badge.tsx:45-52 | outline entries are `border`, a `border-` colour, a `text-` colour and `bg-transparent` |
| Badge.SoftPalette | src/components/ui/badge/Badge.tsx:53-60 | soft entries pair `bg-<hue>-100` with `text-<hue>-800` of the same hue |
| Badge.SoftBackground | src/components/ui/badge/Badge.tsx:53-60 | the first token of a soft entry is `bg-<hue>-100` |
| Badge.SoftText | src/components/ui/badge/Badge.tsx:53-60 | the second token of a soft entry is `text-<hue>-800` |
| Badge.SoftNeverMixesSolid | src/components/ui/badge/Badge.tsx:63-70 | no token of a soft entry occurs in any solid entry |
| Badge.DefaultBadge | src/components/ui/badge/Badge.tsx:19-21 | a Badge with no props passes the sm size and the solid primary entry |
| Icon.SizeClasses | src/components/ui/icon/Icon.tsx:34-40 | each size is a `w-` and an `h-` token of the same measure |
| Icon.BackgroundColorClasses | src/components/ui/icon/Icon.tsx:42-49 | the background is `bg-<hue>-100` |
| Icon.IconColorClasses | src/components/ui/icon/Icon.tsx:51-58 | the icon colour is `bg-<hue>-500`, except success, which is `bg-emerald-600` |
| Icon.ClassFragments | src/components/ui/icon/Icon.tsx:60-72 | six fragments: base; size classes iff the size is named; the background iff one is given; `rounded-lg` iff rounded; icon colour and `rounded` iff placeholder |
| Icon.CustomStyle | src/components/ui/icon/Icon.tsx:75-77 | a style exists iff the size is numeric, and then width and height are both `${n}px` |
| Icon.Render | src/components/ui/icon/Icon.tsx:80-108 | both branches pass the same `cn` call and style; a placeholder holds the children or the filler; otherwise the screen-reader name follows iff a non-empty name is given |
| Icon.SizeStatedOnce | src/components/ui/icon/Icon.tsx:64-77 | every Icon states its size exactly one way, either a size-class fragment or a pixel style |
| Icon.DefaultIcon | src/components/ui/icon/Icon.tsx:23-27 | an Icon with no props passes `w-8 h-8` with no style and no other optional fragment |
| Icon.FeatureIcon | components/landing/FeaturesSection.test.tsx:36-38 | a 64-pixel placeholder icon gets style width and height `64px`, no size classes, and the filler shape |
| Container.MaxWidthClasses | src/components/ui/layout/Container.tsx:21-28 | each width key `k` maps to `max-w-k`, for all six keys |
| Container.PaddingClasses | src/components/ui/layout/Container.tsx:30-36 | every padding entry is a horizontal `px-` token |
| Container.ClassFragments | src/components/ui/layout/Container.tsx:38-43 | four fragments in order: `w-full`, max width, padding, then `mx-auto` gated on `center` |
| Container.Render | src/components/ui/layout/Container.tsx:12-48 | defaults xl, md, centred are applied; `className` passes through |
| Container.Centering | src/components/ui/layout/Container.tsx:42 | `mx-auto` is passed iff `center` is not `false` |
| Container.DefaultContainer | src/components/ui/layout/Container.tsx:12-14 | a Container with no props passes `w-full max-w-xl px-6 mx-auto` |
| Heading.Tag | src/components/ui/typography/Heading.tsx:24 | the tag is `h` followed by one digit, and that digit reads back as the level |
| Heading.TagInjective | src/components/ui/typography/Heading.tsx:24 | distinct levels render distinct tags |
| Typography.ClassFragments | src/components/ui/typography/Heading.tsx:26-35 | size, weight, a colour fragment iff the colour is not `inherit`, then `text-<align>` |
| Heading.Render | src/components/ui/typography/Heading.tsx:13-46 | defaults level 2, lg, semibold, inherit, left are applied; `className` passes through |
| Heading.DefaultHeading | src/components/ui/typography/Heading.tsx:13-17 | a Heading with no props is an `h2` with `text-lg font-semibold text-left` and no colour |
| Text.Render | src/components/ui/typography/Text.tsx:13-46 | the tag is `as`; defaults md, normal, inherit, left, p are applied; the fragments are the shared typography list (Text.tsx:26-35 is a second copy of Heading's); `className` passes through |
| Text.DefaultText | src/components/ui/typography/Text.tsx:13-17 | a Text with no props is a `p` with `text-base font-normal text-left` and no colour |
| Decimal.NatToString | src/components/ui/icon/Icon.tsx:76 | `${n}` is a non-empty string of digits with no leading zero |
| Decimal.IntToString | src/components/ui/icon/Icon.tsx:76 | `${i}` starts with a minus sign iff `i` is negative, and what follows the sign is all digits and reads back as the magnitude of `i` |
| Decimal.ParseNatToString | src/components/ui/icon/Icon.tsx:76 | the digits of `${n}` read back as `n` |
| Decimal.NatToStringInjective | src/components/ui/icon/Icon.tsx:76 | distinct numbers print differently |
| CoverageBadge.Rung | scripts/update-coverage-badge.js:7-14 | a reference definition of the rung, one per ten points from 50 to 90; it is always a ladder index |
| CoverageBadge.CoverageColor | scripts/update-coverage-badge.js:7-14 | the threshold cascade returns the ladder colour of the reference rung |
| CoverageBadge.RungBounds | scripts/update-coverage-badge.js:7-14 | red iff below 50, brightgreen iff at least 90, otherwise the rung `k` covers exactly `40+10k` to `49+10k` |
| CoverageBadge.ColorMonotone | scripts/update-coverage-badge.js:7-14 | a higher percentage never yields a lower rung |
| CoverageBadge.DropSpaces | scripts/update-coverage-badge.js:20 | drops exactly the leading whitespace: the result is a suffix, what was dropped is all whitespace, and the result does not start with whitespace |
| CoverageBadge.DropSpacesRun | scripts/update-coverage-badge.js:20 | a whitespace run followed by a non-space character is dropped exactly |
| CoverageBadge.CollapseLeadingRun | scripts/update-coverage-badge.js:20 | a leading whitespace run becomes exactly one `_` |
| CoverageBadge.CollapseRun | scripts/update-coverage-badge.js:20-21 | a word, a whitespace run and the rest become the word, one `_`, and the collapsed rest |
| CoverageBadge.CollapsedHasNoSpace | scripts/update-coverage-badge.js:20-21 | no whitespace survives `replace(/\s+/g, '_')` |
| CoverageBadge.CollapseIdentity | scripts/update-coverage-badge.js:20-21 | a string without whitespace is left unchanged |
| CoverageBadge.ReplaceCharSources | scripts/update-coverage-badge.js:20-21 | every output character comes from the input or the replacement |
| CoverageBadge.ReplaceCharIdentity | scripts/update-coverage-badge.js:20-21 | an input without the replaced character is unchanged |
| CoverageBadge.ReplaceCharAppend | scripts/update-coverage-badge.js:20-21 | the replacement distributes over concatenation |
| CoverageBadge.RestoreReplaceChar | scripts/update-coverage-badge.js:20-21 | replacing `c` by a text starting with `c` can be undone left to right |
| CoverageBadge.ReplaceKeepsNoSpace | scripts/update-coverage-badge.js:20-21 | replacing by whitespace-free text introduces no whitespace |
| CoverageBadge.LabelRoundTrip | scripts/update-coverage-badge.js:20 | undoubling the dashes of the cleaned label gives the label with whitespace runs collapsed |
| CoverageBadge.ValueRoundTrip | scripts/update-coverage-badge.js:21 | unescaping `%25` and then undoubling the dashes of the cleaned value gives the value with whitespace runs collapsed |
| CoverageBadge.CleanedHaveNoSpace | scripts/update-coverage-badge.js:20-21 | the cleaned label and the cleaned value contain no whitespace |
| CoverageBadge.BadgeUrl | scripts/update-coverage-badge.js:17-23 | the URL holds, each at its own position, the Shields.io prefix, the cleaned label, a dash, the cleaned value, a dash, the colour and `?style=flat-square` |
| CoverageBadge.PercentMessage | scripts/update-coverage-badge.js:74-77 | the message `${p}%` is sent as the digits of `p` followed by `%25` |
| CoverageBadge.CountPositiveBound | scripts/update-coverage-badge.js:50 | the hit count of a filter is at most the number of entries |
| CoverageBadge.BranchHitsBound | scripts/update-coverage-badge.js:53-56 | covered branches never exceed total branches |
| CoverageBadge.SumTotalsSound | scripts/update-coverage-badge.js:47-66 | for every metric, the covered count never exceeds the total |
| CoverageBadge.TallyBranches | scripts/update-coverage-badge.js:53-56 | the inner loop sums the branch lengths and their positive counts |
| CoverageBadge.Tally | scripts/update-coverage-badge.js:38-66 | the eight counters equal the file-by-file totals of the report, and every covered count is at most its total |
| CoverageBadge.Percent | scripts/update-coverage-badge.js:68-71 | a zero total gives the fallback; otherwise the result is `100·covered/total` rounded half up |
| CoverageBadge.PercentBounds | scripts/update-coverage-badge.js:68-71 | a sound counter with entries gives a percentage in 0..100 |
| CoverageBadge.PercentExtremes | scripts/update-coverage-badge.js:68-71 | full coverage is 100% and no coverage is 0% |
| CoverageBadge.ReportPercentages | scripts/update-coverage-badge.js:68-71 | a metric with entries gets its rounded percentage; an empty metric is 0% for statements, functions and lines, but 100% for branches |
| CoverageBadge.PercentagesInRange | scripts/update-coverage-badge.js:47-71 | every percentage of a tallied report lies in 0..100 |
| CoverageBadge.Badges | scripts/update-coverage-badge.js:74-77 | four badges, for statements, branches, functions and lines in that order; each is the badge of `Coverage-<metric>` with that metric's percentage and its ladder colour |
| CoverageBadge.BadgeLabels | scripts/update-coverage-badge.js:74-77 | the four labels are `Coverage-Statements`, `Coverage-Branches`, `Coverage-Functions` and `Coverage-Lines` |
| CoverageBadge.ReplaceBetween | scripts/update-coverage-badge.js:20-21 | one occurrence of the character between two texts without it becomes the replacement |
| CoverageBadge.CleanMetricLabel | scripts/update-coverage-badge.js:74-77 | a label of letters, a dash and letters, such as `Coverage-Lines`, is sent with its dash doubled |
| CoverageBadge.MetricBadgeShape | scripts/update-coverage-badge.js:74-77 | a metric badge is the prefix, the dash-doubled label, the digits, `%25`, and the ladder colour of the percentage |
| CoverageBadge.MetricOfReport | scripts/update-coverage-badge.js:74-77 | the badge of a metric with a percentage in 0..100 is `Coverage--<metric>`, the digits, `%25` and the ladder colour |
| CoverageBadge.TalliedBadges | scripts/update-coverage-badge.js:47-77 | for any report, each of the four badges has its metric's label with the dash doubled, a percentage in 0..100 followed by `%25`, and that percentage's ladder colour |

## Left out

- `cn` (`twMerge(clsx(...))`) is a call into foreign libraries. The model states exactly what is passed to `cn`. The merged class string and the "last class per property wins" conflict rule are not modelled.
- React machinery is not modelled: `forwardRef`, refs, `data-testid`, the `...props` spread, JSX trees, the spinner's SVG markup, and the element and children values themselves. Children are reduced to whether any are given, and `onClick` to whether it is given.
- Of the keyboard event, only its `key` field is modelled. `preventDefault` and the call to `onClick` are recorded as a `KeyOutcome` instead of being performed.
- Values outside the declared prop types are not modelled. This covers `null`, strings that are not enum members, and non-integer or non-finite numeric Icon sizes: `IconSize.Pixels` holds an integer.
- Numbers are unbounded integers: the Icon pixel size, and the coverage counters and totals. JavaScript's exponent notation from 1e21 up and the loss of precision above 2^53 are not modelled, so `IntToString` matches `${n}` only for integers of magnitude at most 2^53.
- Button.ColorFragment: the `|| colorVariants.button.solid.primary` fallback is written in the model, but the table defines every (variant, colour) pair, so the fallback is never taken.
- DesignSystem.ButtonColor has no contract of its own. Its 24 entries are described by the surface and focus-ring lemmas rather than by one full equality per entry.
- `getDesignToken`: the `designTokens` object (`src/lib/design-tokens.ts`) is not part of this model. A token tree is a parameter. Property access that goes through strings, numbers or prototype members (`"abc"?.length`, `toString`) is not modelled; only groups answer keys.
- `responsive`: `Object.entries` puts integer-like keys first in numeric order. The model keeps the given entry order, which equals `Object.entries` order for breakpoint names.
- `updateReadmeWithCoverage`: reading `coverage-final.json`, `JSON.parse`, the README regex search-and-replace and its write, console logging and `process.exit` are I/O and are not modelled. The script's report is a parameter of `Tally`.
- CoverageBadge.Percent: `Math.round` over floating-point division is modelled as exact round-half-up integer arithmetic, so the rare results where IEEE rounding of `covered / total * 100` differs are not captured.
- CoverageBadge.Tally: hit counts are taken as integers. Object key order and the distinction between `Object.keys` and `Object.values` counts are not modelled, since both have one entry per key.
- The other prop types in `src/components/ui/types.ts` (`InputProps`, `FlexProps`, `StackProps`, `ResponsiveValue`) belong to components outside this model.
- The landing sections, the pages, `tailwind.config.ts` and the re-exporting `src/components/ui/index.ts` contain no logic and are not modelled. Two of their test assertions are restated as `Button.StartTrialButton` and `Icon.FeatureIcon`.
