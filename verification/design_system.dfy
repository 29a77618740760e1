/**
 * The design-system utilities: the constant style tables that map the
 * enumerations to utility classes, and the small helpers `when`,
 * `createVariants`, `responsive` and `getDesignToken`.
 *
 * A table entry such as 'text-xs px-2 py-1' is modelled as its sequence of
 * class tokens `["text-xs", "px-2", "py-1"]`; the entry string is the
 * tokens joined by single spaces.
 */
module DesignSystem {
  import opened Wrappers
  import opened Strings
  import opened UiTypes

  /** Some token of `r` starts with `p` (a `p`-prefixed utility is present). */
  predicate HasToken(r: seq<string>, p: string) {
    exists i :: 0 <= i < |r| && StartsWith(r[i], p)
  }

  /** The palette hue each colour variant is drawn from in every table. */
  function Hue(c: ColorVariant): string {
    match c
    case Primary => "green"
    case Secondary => "neutral"
    case Success => "emerald"
    case Warning => "yellow"
    case Error => "red"
    case Neutral => "neutral"
  }

  /** `typographySize` */
  function TypographySize(s: Size): (r: string)
    ensures r == if s == Md then "text-base" else "text-" + s.Key()
  {
    match s
    case Xs => "text-xs"
    case Sm => "text-sm"
    case Md => "text-base"
    case Lg => "text-lg"
    case Xl => "text-xl"
  }

  /** `sizeMap`: a font size (the same one `typographySize` gives), then horizontal and vertical padding. */
  function SizeMap(s: Size): (r: seq<string>)
    ensures |r| == 3
    ensures r[0] == TypographySize(s)
    ensures StartsWith(r[1], "px-") && StartsWith(r[2], "py-")
  {
    match s
    case Xs => ["text-xs", "px-2", "py-1"]
    case Sm => ["text-sm", "px-3", "py-1.5"]
    case Md => ["text-base", "px-4", "py-2"]
    case Lg => ["text-lg", "px-6", "py-3"]
    case Xl => ["text-xl", "px-8", "py-4"]
  }

  /** `colorVariants.button[variant][color]`: every entry ends with the focus-ring colour of its hue. */
  function ButtonColor(v: ButtonVariant, c: ColorVariant): (r: seq<string>)
  {
    match v
    case Solid => (
      match c
      case Primary => ["bg-green-600", "text-white", "hover:bg-green-700", "focus:ring-green-500"]
      case Secondary => ["bg-neutral-600", "text-white", "hover:bg-neutral-700", "focus:ring-neutral-500"]
      case Success => ["bg-emerald-600", "text-white", "hover:bg-emerald-700", "focus:ring-emerald-500"]
      case Warning => ["bg-yellow-600", "text-white", "hover:bg-yellow-700", "focus:ring-yellow-500"]
      case Error => ["bg-red-600", "text-white", "hover:bg-red-700", "focus:ring-red-500"]
      case Neutral => ["bg-neutral-100", "text-neutral-900", "hover:bg-neutral-200", "focus:ring-neutral-500"])
    case Outline => (
      match c
      case Primary => ["border-green-600", "text-green-600", "hover:bg-green-50", "focus:ring-green-500"]
      case Secondary => ["border-neutral-600", "text-neutral-600", "hover:bg-neutral-50", "focus:ring-neutral-500"]
      case Success => ["border-emerald-600", "text-emerald-600", "hover:bg-emerald-50", "focus:ring-emerald-500"]
      case Warning => ["border-yellow-600", "text-yellow-600", "hover:bg-yellow-50", "focus:ring-yellow-500"]
      case Error => ["border-red-600", "text-red-600", "hover:bg-red-50", "focus:ring-red-500"]
      case Neutral => ["border-neutral-300", "text-neutral-700", "hover:bg-neutral-50", "focus:ring-neutral-500"])
    case Ghost => (
      match c
      case Primary => ["text-green-600", "hover:bg-green-50", "focus:ring-green-500"]
      case Secondary => ["text-neutral-600", "hover:bg-neutral-50", "focus:ring-neutral-500"]
      case Success => ["text-emerald-600", "hover:bg-emerald-50", "focus:ring-emerald-500"]
      case Warning => ["text-yellow-600", "hover:bg-yellow-50", "focus:ring-yellow-500"]
      case Error => ["text-red-600", "hover:bg-red-50", "focus:ring-red-500"]
      case Neutral => ["text-neutral-700", "hover:bg-neutral-50", "focus:ring-neutral-500"])
    case Link => (
      match c
      case Primary => ["text-green-600", "hover:text-green-700", "focus:ring-green-500"]
      case Secondary => ["text-neutral-600", "hover:text-neutral-700", "focus:ring-neutral-500"]
      case Success => ["text-emerald-600", "hover:text-emerald-700", "focus:ring-emerald-500"]
      case Warning => ["text-yellow-600", "hover:text-yellow-700", "focus:ring-yellow-500"]
      case Error => ["text-red-600", "hover:text-red-700", "focus:ring-red-500"]
      case Neutral => ["text-neutral-700", "hover:text-neutral-800", "focus:ring-neutral-500"])
  }

  /** `colorVariants.text` */
  function TextColorClass(c: ColorVariant): (r: string)
    ensures r == "text-" + Hue(c) + (if c == Neutral then "-900" else "-600")
  {
    match c
    case Primary => "text-green-600"
    case Secondary => "text-neutral-600"
    case Success => "text-emerald-600"
    case Warning => "text-yellow-600"
    case Error => "text-red-600"
    case Neutral => "text-neutral-900"
  }

  /** `colorVariants.background` */
  function BackgroundClass(c: ColorVariant): (r: string)
    ensures r == "bg-" + Hue(c) + "-50"
  {
    match c
    case Primary => "bg-green-50"
    case Secondary => "bg-neutral-50"
    case Success => "bg-emerald-50"
    case Warning => "bg-yellow-50"
    case Error => "bg-red-50"
    case Neutral => "bg-neutral-50"
  }

  /** `fontWeight` */
  function FontWeightClass(w: Weight): (r: string)
    ensures r == "font-" + w.Key()
  {
    match w
    case Normal => "font-normal"
    case Medium => "font-medium"
    case Semibold => "font-semibold"
    case Bold => "font-bold"
  }

  /** `spacing`: a gap utility per size. */
  function SpacingClass(s: Size): (r: string)
    ensures StartsWith(r, "gap-")
  {
    match s
    case Xs => "gap-1"
    case Sm => "gap-2"
    case Md => "gap-4"
    case Lg => "gap-6"
    case Xl => "gap-8"
  }

  /** `focusRing` */
  const FocusRing: seq<string> := ["focus:outline-none", "focus:ring-2", "focus:ring-offset-2"]

  /** `transition` */
  const Transition: seq<string> := ["transition-colors", "duration-200", "ease-in-out"]

  /** `when(condition, classes)`: the classes when the condition holds, the empty string otherwise. */
  function When(condition: bool, classes: string): (r: string)
    ensures condition ==> r == classes
    ensures !condition ==> r == ""
  {
    if condition then classes else ""
  }

  /** `createVariants(variants)` hands its argument back unchanged. */
  function CreateVariants<T>(variants: T): (r: T)
    ensures r == variants
  {
    variants
  }

  /** The argument of `responsive`: a plain class string or an object from breakpoint to classes, in entry order. */
  datatype ResponsiveValue = Plain(value: string) | ByBreakpoint(entries: seq<(string, string)>)

  /** One entry of a responsive object: the `base` entry is unprefixed, any other gets `breakpoint:`. */
  function Piece(breakpoint: string, value: string): (r: string)
    ensures breakpoint == "base" ==> r == value
    ensures breakpoint != "base" ==> r == breakpoint + ":" + value
  {
    var prefix := if breakpoint == "base" then "" else breakpoint + ":";
    prefix + value
  }

  function Pieces(entries: seq<(string, string)>): (r: seq<string>)
    ensures |r| == |entries|
    ensures forall i :: 0 <= i < |r| ==> r[i] == Piece(entries[i].0, entries[i].1)
  {
    seq(|entries|, i requires 0 <= i < |entries| => Piece(entries[i].0, entries[i].1))
  }

  /** `responsive(value)` */
  function Responsive(value: ResponsiveValue): (r: string)
    ensures value.Plain? ==> r == value.value
    ensures value.ByBreakpoint? ==> r == Join(Pieces(value.entries), " ")
  {
    match value
    case Plain(s) => s
    case ByBreakpoint(entries) => Join(Pieces(entries), " ")
  }

  /**
   * When no breakpoint and no value contains a space, the classes `responsive`
   * produces split back, at single spaces, into exactly one piece per entry,
   * in entry order.
   */
  lemma ResponsivePieces(entries: seq<(string, string)>)
    requires |entries| >= 1
    requires forall i :: 0 <= i < |entries| ==> ' ' !in entries[i].0 && ' ' !in entries[i].1
    ensures Split(Responsive(ByBreakpoint(entries)), ' ') == Pieces(entries)
  {
    var ps := Pieces(entries);
    forall i | 0 <= i < |ps| ensures ' ' !in ps[i] {
      var (k, v) := entries[i];
      if k != "base" {
        assert ps[i] == k + ":" + v;
      }
    }
    SplitJoin(ps, ' ');
  }

  /** A design-token tree: a leaf value, or a group of named sub-tokens. */
  datatype Token = Leaf(value: string) | Group(members: map<string, Token>)

  /** One step of the walk, `obj?.[key]`: undefined stays undefined and a missing key gives undefined. */
  function Lookup(obj: Option<Token>, key: string): (r: Option<Token>)
    ensures r.Some? <==> obj.Some? && obj.value.Group? && key in obj.value.members
    ensures r.Some? ==> r.value == obj.value.members[key]
  {
    match obj
    case Some(Group(members)) => if key in members then Some(members[key]) else None
    case _ => None
  }

  /** The `reduce` over the path's keys, from left to right. */
  function Walk(start: Option<Token>, keys: seq<string>): Option<Token>
    decreases |keys|
  {
    if |keys| == 0 then start else Walk(Lookup(start, keys[0]), keys[1..])
  }

  /** `getDesignToken(path)`, the token tree passed in as `tokens`. */
  function GetDesignToken(tokens: Token, path: string): Option<Token> {
    Walk(Some(tokens), Split(path, '.'))
  }

  /** Once the walk is undefined, it stays undefined whatever keys follow. */
  lemma {:induction false} WalkUndefined(keys: seq<string>)
    ensures Walk(None, keys) == None
    decreases |keys|
  {
    if |keys| > 0 {
      WalkUndefined(keys[1..]);
    }
  }

  /** Walking a path in two parts is walking the whole path. */
  lemma {:induction false} WalkConcat(start: Option<Token>, a: seq<string>, b: seq<string>)
    ensures Walk(start, a + b) == Walk(Walk(start, a), b)
    decreases |a|
  {
    if |a| == 0 {
      assert a + b == b;
    } else {
      assert (a + b)[0] == a[0] && (a + b)[1..] == a[1..] + b;
      WalkConcat(Lookup(start, a[0]), a[1..], b);
    }
  }

  /** A key missing part-way along the path makes the whole lookup undefined, without failing. */
  lemma MissingKeyIsFinal(start: Option<Token>, keys: seq<string>, i: nat)
    requires i <= |keys|
    requires Walk(start, keys[..i]) == None
    ensures Walk(start, keys) == None
  {
    assert keys == keys[..i] + keys[i..];
    WalkConcat(start, keys[..i], keys[i..]);
    WalkUndefined(keys[i..]);
  }

  /** The dot-separated path of dot-free keys walks exactly those keys. */
  lemma GetDesignTokenPath(tokens: Token, keys: seq<string>)
    requires |keys| >= 1
    requires forall i :: 0 <= i < |keys| ==> '.' !in keys[i]
    ensures GetDesignToken(tokens, Join(keys, ".")) == Walk(Some(tokens), keys)
  {
    SplitJoin(keys, '.');
  }

  /** Solid entries carry an unprefixed background, outline entries a border colour, ghost and link neither. */
  lemma ButtonColorSurface(v: ButtonVariant, c: ColorVariant)
    ensures HasToken(ButtonColor(v, c), "bg-") <==> v.Solid?
    ensures HasToken(ButtonColor(v, c), "border-") <==> v.Outline?
  {
    match v {
      case Solid => SolidSurface(c);
      case Outline => OutlineSurface(c);
      case _ => QuietSurface(v, c);
    }
  }

  lemma SolidSurface(c: ColorVariant)
    ensures var r := ButtonColor(ButtonVariant.Solid, c);
      StartsWith(r[0], "bg-") && forall i :: 0 <= i < |r| ==> !StartsWith(r[i], "border-")
  {
    var r := ButtonColor(ButtonVariant.Solid, c);
    forall i | 0 <= i < |r| ensures !StartsWith(r[i], "border-") {
      if r[i][0] != 'b' { NotPrefixed(r[i], "border-", 0); } else { NotPrefixed(r[i], "border-", 1); }
    }
  }

  lemma OutlineSurface(c: ColorVariant)
    ensures var r := ButtonColor(ButtonVariant.Outline, c);
      StartsWith(r[0], "border-") && forall i :: 0 <= i < |r| ==> !StartsWith(r[i], "bg-")
  {
    var r := ButtonColor(ButtonVariant.Outline, c);
    forall i | 0 <= i < |r| ensures !StartsWith(r[i], "bg-") {
      NotPrefixed(r[i], "bg-", 1);
    }
  }

  lemma QuietSurface(v: ButtonVariant, c: ColorVariant)
    requires v.Ghost? || v.Link?
    ensures var r := ButtonColor(v, c);
      forall i :: 0 <= i < |r| ==> !StartsWith(r[i], "bg-") && !StartsWith(r[i], "border-")
  {
    var r := ButtonColor(v, c);
    forall i | 0 <= i < |r| ensures !StartsWith(r[i], "bg-") && !StartsWith(r[i], "border-") {
      NotPrefixed(r[i], "bg-", 0);
      NotPrefixed(r[i], "border-", 0);
    }
  }

  /**
   * All 24 (variant, colour) pairs have an entry of three or four tokens,
   * and each entry ends with the focus-ring shade of its colour's hue.
   */
  lemma ButtonColorFocusRing(v: ButtonVariant, c: ColorVariant)
    ensures var r := ButtonColor(v, c);
      3 <= |r| <= 4 && r[|r| - 1] == "focus:ring-" + Hue(c) + "-500"
  {
    match v {
      case Solid => SolidRing(c);
      case Outline => OutlineRing(c);
      case Ghost => GhostRing(c);
      case Link => LinkRing(c);
    }
  }

  lemma SolidRing(c: ColorVariant)
    ensures var r := ButtonColor(ButtonVariant.Solid, c); |r| == 4 && r[3] == "focus:ring-" + Hue(c) + "-500"
  {
  }

  lemma OutlineRing(c: ColorVariant)
    ensures var r := ButtonColor(ButtonVariant.Outline, c); |r| == 4 && r[3] == "focus:ring-" + Hue(c) + "-500"
  {
  }

  lemma GhostRing(c: ColorVariant)
    ensures var r := ButtonColor(Ghost, c); |r| == 3 && r[2] == "focus:ring-" + Hue(c) + "-500"
  {
  }

  lemma LinkRing(c: ColorVariant)
    ensures var r := ButtonColor(Link, c); |r| == 3 && r[2] == "focus:ring-" + Hue(c) + "-500"
  {
  }
}
