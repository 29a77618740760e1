/** The Heading component: the element level and its class fragments. */
module Heading {
  import opened Wrappers
  import opened Decimal
  import opened UiTypes
  import opened DesignSystem
  import opened ClassList
  import opened Typography

  /** `HeadingProps` */
  datatype Props = Props(
    level: Option<HeadingLevel>,
    size: Option<Size>,
    weight: Option<Weight>,
    color: Option<TextColor>,
    align: Option<Align>,
    className: Option<string>)

  /** `h${level}`: the letter `h` followed by the level's one digit. */
  function Tag(level: HeadingLevel): (t: string)
    ensures |t| == 2 && t[0] == 'h' && AllDigits(t[1..])
    ensures ParseDigits(t[1..]) == level
  {
    var t := "h" + IntToString(level);
    assert t[1..] == NatToString(level);
    ParseNatToString(level);
    t
  }

  /** The rendered `h1` to `h6` element. */
  datatype Element = Element(tag: string, classes: CnCall)

  function Render(p: Props): (e: Element)
    ensures e.tag == Tag(p.level.GetOr(2))
    ensures e.classes.className == p.className
    ensures e.classes.fragments == ClassFragments(p.size.GetOr(Lg), p.weight.GetOr(Semibold), p.color.GetOr(Inherit), p.align.GetOr(Left))
  {
    Element(
      Tag(p.level.GetOr(2)),
      CnCall(ClassFragments(p.size.GetOr(Lg), p.weight.GetOr(Semibold), p.color.GetOr(Inherit), p.align.GetOr(Left)), p.className))
  }

  /** Distinct levels render distinct elements. */
  lemma TagInjective(a: HeadingLevel, b: HeadingLevel)
    requires Tag(a) == Tag(b)
    ensures a == b
  {
    assert Tag(a)[1..] == Tag(b)[1..];
  }

  /** A Heading with no props: an `h2` in large semibold type, inheriting its colour, aligned left. */
  lemma DefaultHeading()
    ensures var e := Render(Props(None, None, None, None, None, None));
      && e.tag == "h2"
      && e.classes.fragments == [Classes(["text-lg"]), Classes(["font-semibold"]), Off, Classes(["text-left"])]
  {
    assert NatToString(2) == "2";
    assert FontWeightClass(Semibold) == "font-semibold";
    assert "text-" + Left.Key() == "text-left";
  }
}
