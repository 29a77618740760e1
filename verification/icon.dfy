/** The Icon component: class fragments, the numeric-size style and its two render branches. */
module Icon {
  import opened Wrappers
  import opened Strings
  import opened Decimal
  import opened UiTypes
  import opened DesignSystem
  import opened ClassList

  /** `IconProps`; `children` records whether truthy children were given. */
  datatype Props = Props(
    name: Option<string>,
    size: Option<IconSize>,
    color: Option<ColorVariant>,
    backgroundColor: Option<ColorVariant>,
    rounded: Option<bool>,
    placeholder: Option<bool>,
    children: bool,
    className: Option<string>)

  /** `sizeClasses`: a square, the same step for width and height. */
  function SizeClasses(s: Size): (r: seq<string>)
    ensures |r| == 2 && StartsWith(r[0], "w-") && StartsWith(r[1], "h-")
    ensures r[0][2..] == r[1][2..]
  {
    match s
    case Xs => ["w-4", "h-4"]
    case Sm => ["w-6", "h-6"]
    case Md => ["w-8", "h-8"]
    case Lg => ["w-12", "h-12"]
    case Xl => ["w-16", "h-16"]
  }

  /** `backgroundColorClasses`: the light shade of the colour's hue. */
  function BackgroundColorClasses(c: ColorVariant): (r: string)
    ensures r == "bg-" + Hue(c) + "-100"
  {
    match c
    case Primary => "bg-green-100"
    case Secondary => "bg-neutral-100"
    case Success => "bg-emerald-100"
    case Warning => "bg-yellow-100"
    case Error => "bg-red-100"
    case Neutral => "bg-neutral-100"
  }

  /** `iconColorClasses`: the mid shade of the colour's hue, one step darker for `success`. */
  function IconColorClasses(c: ColorVariant): (r: string)
    ensures r == "bg-" + Hue(c) + (if c == Success then "-600" else "-500")
  {
    match c
    case Primary => "bg-green-500"
    case Secondary => "bg-neutral-500"
    case Success => "bg-emerald-600"
    case Warning => "bg-yellow-500"
    case Error => "bg-red-500"
    case Neutral => "bg-neutral-500"
  }

  const BaseTokens: seq<string> := ["flex", "items-center", "justify-center"]

  /**
   * `baseClasses`: base; the size classes only for a named size; the
   * background only when one is given; `rounded-lg` when rounded; the icon
   * colour and `rounded` only for a placeholder.
   */
  function ClassFragments(size: IconSize, color: ColorVariant, background: Option<ColorVariant>, rounded: bool, placeholder: bool): (r: seq<ClassValue>)
    ensures |r| == 6
    ensures r[0] == Classes(BaseTokens)
    ensures r[1].Classes? <==> size.Named?
    ensures size.Named? ==> r[1].tokens == SizeClasses(size.size)
    ensures r[2].Classes? <==> background.Some?
    ensures background.Some? ==> r[2].tokens == [BackgroundColorClasses(background.value)]
    ensures r[3] == Gate(rounded, ["rounded-lg"])
    ensures r[4] == Gate(placeholder, [IconColorClasses(color)]) && r[5] == Gate(placeholder, ["rounded"])
  {
    [ Classes(BaseTokens),
      if size.Named? then Classes(SizeClasses(size.size)) else Off,
      if background.Some? then Classes([BackgroundColorClasses(background.value)]) else Off,
      Gate(rounded, ["rounded-lg"]),
      Gate(placeholder, [IconColorClasses(color)]),
      Gate(placeholder, ["rounded"]) ]
  }

  /** The inline style `{ width, height }`. */
  datatype PixelBox = PixelBox(width: string, height: string)

  /** `customStyle`: a numeric size becomes equal width and height of that many pixels; a named size gives no style. */
  function CustomStyle(size: IconSize): (r: Option<PixelBox>)
    ensures r.Some? <==> size.Pixels?
    ensures r.Some? ==> r.value.width == r.value.height == IntToString(size.px) + "px"
  {
    match size
    case Pixels(n) => Some(PixelBox(IntToString(n) + "px", IntToString(n) + "px"))
    case Named(_) => None
  }

  /** What the `<div>` contains: the caller's children, the default filler shape, or the screen-reader name. */
  datatype Child = CallerChildren | Filler | ScreenReaderName(name: string)

  /** The rendered `<div>`. */
  datatype Element = Element(classes: CnCall, style: Option<PixelBox>, content: seq<Child>)

  /**
   * Both branches render a `<div>` with the same `cn` call and style. A
   * placeholder holds the children or, without them, the filler; otherwise
   * the children are followed by the name for screen readers when a
   * non-empty name is given.
   */
  function Render(p: Props): (e: Element)
    ensures e.classes == CnCall(
      ClassFragments(p.size.GetOr(Named(Md)), p.color.GetOr(Primary), p.backgroundColor,
        p.rounded == Some(true), p.placeholder == Some(true)),
      p.className)
    ensures e.style == CustomStyle(p.size.GetOr(Named(Md)))
    ensures p.placeholder == Some(true) ==> e.content == if p.children then [CallerChildren] else [Filler]
    ensures p.placeholder != Some(true) ==>
      e.content == (if p.children then [CallerChildren] else []) +
                   (if p.name.Some? && p.name.value != "" then [ScreenReaderName(p.name.value)] else [])
  {
    var size := p.size.GetOr(Named(Md));
    var color := p.color.GetOr(Primary);
    var rounded := p.rounded.GetOr(false);
    var placeholder := p.placeholder.GetOr(false);
    var classes := CnCall(ClassFragments(size, color, p.backgroundColor, rounded, placeholder), p.className);
    var style := CustomStyle(size);
    if placeholder then
      Element(classes, style, if p.children then [CallerChildren] else [Filler])
    else
      var named := if p.name.Some? && p.name.value != "" then [ScreenReaderName(p.name.value)] else [];
      Element(classes, style, (if p.children then [CallerChildren] else []) + named)
  }

  /** Every Icon states its size exactly one way: a size-class fragment or a pixel style, never both. */
  lemma SizeStatedOnce(p: Props)
    ensures var e := Render(p); e.classes.fragments[1].Classes? != e.style.Some?
  {
  }

  /** An Icon with no props: md size classes, no style, no background, no placeholder colour. */
  lemma DefaultIcon()
    ensures var e := Render(Props(None, None, None, None, None, None, false, None));
      && e.classes.fragments == [Classes(BaseTokens), Classes(["w-8", "h-8"]), Off, Off, Off, Off]
      && e.style == None && e.content == []
  {
  }

  /**
   * The feature cards' icons: a 64-pixel rounded placeholder gets width and
   * height `64px`, no size-class fragment, its background and its icon
   * colour, and the filler shape.
   */
  lemma FeatureIcon(c: ColorVariant)
    ensures var e := Render(Props(None, Some(Pixels(64)), Some(c), Some(c), Some(true), Some(true), false, Some("mx-auto mb-4")));
      && e.style == Some(PixelBox("64px", "64px"))
      && e.classes.fragments[1] == Off
      && e.classes.fragments[2] == Classes([BackgroundColorClasses(c)])
      && e.classes.fragments[4] == Classes([IconColorClasses(c)])
      && e.content == [Filler]
  {
    assert NatToString(64) == NatToString(6) + [DigitChar(4)] == "64";
    assert IntToString(64) + "px" == "64px";
  }
}
