/** The Text component: the element chosen by `as` and its class fragments. */
module Text {
  import opened Wrappers
  import opened UiTypes
  import opened DesignSystem
  import opened ClassList
  import opened Typography

  /** `TextProps`; `tag` is the `as` prop. */
  datatype Props = Props(
    size: Option<Size>,
    weight: Option<Weight>,
    color: Option<TextColor>,
    align: Option<Align>,
    tag: Option<TextTag>,
    className: Option<string>)

  /** The rendered element, named by `as`. */
  datatype Element = Element(tag: string, classes: CnCall)

  function Render(p: Props): (e: Element)
    ensures e.tag == p.tag.GetOr(P).Key()
    ensures e.classes.className == p.className
    ensures e.classes.fragments == ClassFragments(p.size.GetOr(Md), p.weight.GetOr(Normal), p.color.GetOr(Inherit), p.align.GetOr(Left))
  {
    var tag := p.tag.GetOr(P);
    Element(tag.Key(), CnCall(ClassFragments(p.size.GetOr(Md), p.weight.GetOr(Normal), p.color.GetOr(Inherit), p.align.GetOr(Left)), p.className))
  }

  /** A Text with no props: a `p` in base-size normal type, inheriting its colour, aligned left. */
  lemma DefaultText()
    ensures var e := Render(Props(None, None, None, None, None, None));
      && e.tag == "p"
      && e.classes.fragments == [Classes(["text-base"]), Classes(["font-normal"]), Off, Classes(["text-left"])]
  {
    assert FontWeightClass(Normal) == "font-normal";
    assert "text-" + Left.Key() == "text-left";
  }
}
