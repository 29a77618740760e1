/**
 * The class fragments shared by the Heading and Text components. Both
 * components spell out the same `baseClasses` list, one copy each
 * (Heading.tsx and Text.tsx); the model defines it once.
 */
module Typography {
  import opened UiTypes
  import opened DesignSystem
  import opened ClassList

  /** `baseClasses`: size, weight, the colour unless it is `inherit`, then the alignment. */
  function ClassFragments(s: Size, w: Weight, color: TextColor, align: Align): (r: seq<ClassValue>)
    ensures |r| == 4
    ensures r[0] == Classes([TypographySize(s)]) && r[1] == Classes([FontWeightClass(w)])
    ensures r[2].Classes? <==> color != Inherit
    ensures color.Tint? ==> r[2].tokens == [TextColorClass(color.color)]
    ensures r[3] == Classes(["text-" + align.Key()])
  {
    [ Classes([TypographySize(s)]),
      Classes([FontWeightClass(w)]),
      if color.Tint? then Classes([TextColorClass(color.color)]) else Off,
      Classes(["text-" + align.Key()]) ]
  }
}
