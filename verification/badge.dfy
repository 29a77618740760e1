/** The Badge component: its size and variant-by-colour tables and its class fragments. */
module Badge {
  import opened Wrappers
  import opened Strings
  import opened UiTypes
  import opened DesignSystem
  import opened ClassList

  /** `BadgeProps` */
  datatype Props = Props(
    variant: Option<BadgeVariant>,
    color: Option<ColorVariant>,
    size: Option<Size>,
    className: Option<string>)

  /** `sizeClasses`: horizontal padding, vertical padding, font size. */
  function SizeClasses(s: Size): (r: seq<string>)
    ensures |r| == 3
    ensures StartsWith(r[0], "px-") && StartsWith(r[1], "py-") && StartsWith(r[2], "text-")
  {
    match s
    case Xs => ["px-1.5", "py-0.5", "text-xs"]
    case Sm => ["px-2.5", "py-0.5", "text-xs"]
    case Md => ["px-3", "py-1", "text-sm"]
    case Lg => ["px-4", "py-1.5", "text-sm"]
    case Xl => ["px-5", "py-2", "text-base"]
  }

  /** `variantClasses[variant][color]`, defined for all eighteen pairs. */
  function VariantClasses(v: BadgeVariant, c: ColorVariant): (r: seq<string>)
    ensures |r| == if v.Outline? then 4 else 2
  {
    match v
    case Solid => (
      match c
      case Primary => ["bg-green-600", "text-white"]
      case Secondary => ["bg-neutral-600", "text-white"]
      case Success => ["bg-emerald-600", "text-white"]
      case Warning => ["bg-yellow-600", "text-white"]
      case Error => ["bg-red-600", "text-white"]
      case Neutral => ["bg-neutral-800", "text-white"])
    case Outline => (
      match c
      case Primary => ["border", "border-green-600", "text-green-600", "bg-transparent"]
      case Secondary => ["border", "border-neutral-600", "text-neutral-600", "bg-transparent"]
      case Success => ["border", "border-emerald-600", "text-emerald-600", "bg-transparent"]
      case Warning => ["border", "border-yellow-600", "text-yellow-600", "bg-transparent"]
      case Error => ["border", "border-red-600", "text-red-600", "bg-transparent"]
      case Neutral => ["border", "border-neutral-800", "text-neutral-800", "bg-transparent"])
    case Soft => (
      match c
      case Primary => ["bg-green-100", "text-green-800"]
      case Secondary => ["bg-neutral-100", "text-neutral-800"]
      case Success => ["bg-emerald-100", "text-emerald-800"]
      case Warning => ["bg-yellow-100", "text-yellow-800"]
      case Error => ["bg-red-100", "text-red-800"]
      case Neutral => ["bg-neutral-100", "text-neutral-800"])
  }

  const BaseTokens: seq<string> := ["inline-flex", "items-center", "justify-center", "rounded-full", "font-medium", "whitespace-nowrap"]

  /** `baseClasses`: base, size, then the single variant-by-colour entry. */
  function ClassFragments(v: BadgeVariant, c: ColorVariant, s: Size): (r: seq<ClassValue>)
    ensures |r| == 3
    ensures r[0] == Classes(BaseTokens) && r[1] == Classes(SizeClasses(s)) && r[2] == Classes(VariantClasses(v, c))
  {
    [Classes(BaseTokens), Classes(SizeClasses(s)), Classes(VariantClasses(v, c))]
  }

  /** The rendered `<span>`. */
  function Render(p: Props): (call: CnCall)
    ensures call.className == p.className
    ensures call.fragments == ClassFragments(p.variant.GetOr(BadgeVariant.Solid), p.color.GetOr(Primary), p.size.GetOr(Sm))
  {
    CnCall(ClassFragments(p.variant.GetOr(BadgeVariant.Solid), p.color.GetOr(Primary), p.size.GetOr(Sm)), p.className)
  }

  /** A solid entry is a background utility followed by `text-white`. */
  lemma SolidEntry(c: ColorVariant)
    ensures var r := VariantClasses(BadgeVariant.Solid, c); StartsWith(r[0], "bg-") && r[1] == "text-white"
  {
  }

  /** An outline entry is `border`, a border colour, a text colour and `bg-transparent`. */
  lemma OutlineEntry(c: ColorVariant)
    ensures var r := VariantClasses(BadgeVariant.Outline, c);
      r[0] == "border" && StartsWith(r[1], "border-") && StartsWith(r[2], "text-") && r[3] == "bg-transparent"
  {
  }

  /** A soft entry pairs the light background with the dark text shade of the colour's hue. */
  lemma SoftPalette(c: ColorVariant)
    ensures VariantClasses(Soft, c) == ["bg-" + Hue(c) + "-100", "text-" + Hue(c) + "-800"]
  {
    SoftBackground(c);
    SoftText(c);
  }

  lemma SoftBackground(c: ColorVariant)
    ensures VariantClasses(Soft, c)[0] == "bg-" + Hue(c) + "-100"
  {
  }

  lemma SoftText(c: ColorVariant)
    ensures VariantClasses(Soft, c)[1] == "text-" + Hue(c) + "-800"
  {
  }

  /** A soft badge of any colour shares no class with a solid badge of any colour. */
  lemma SoftNeverMixesSolid(c: ColorVariant, d: ColorVariant)
    ensures forall t :: t in VariantClasses(Soft, c) ==> t !in VariantClasses(BadgeVariant.Solid, d)
  {
    var soft := VariantClasses(Soft, c);
    var solid := VariantClasses(BadgeVariant.Solid, d);
    SoftPalette(c);
    // the soft background ends in shade 100, every solid background in 600 or 800
    assert soft[0][|soft[0]| - 3] == '1';
    assert solid[0][|solid[0]| - 3] != '1';
    // the soft text colour ends in a digit, the solid text colour is `text-white`
    assert soft[1][|soft[1]| - 1] == '0';
    assert soft[0][0] == 'b' && soft[1][0] == 't' && solid[0][0] == 'b' && solid[1][0] == 't';
  }

  /** A Badge with no props: solid, primary, sm. */
  lemma DefaultBadge()
    ensures Render(Props(None, None, None, None)).fragments ==
      [Classes(BaseTokens), Classes(["px-2.5", "py-0.5", "text-xs"]), Classes(["bg-green-600", "text-white"])]
  {
  }
}
