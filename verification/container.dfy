/** The Container component: max-width and padding tables and its class fragments. */
module Container {
  import opened Wrappers
  import opened Strings
  import opened UiTypes
  import opened ClassList

  /** `ContainerProps` */
  datatype Props = Props(
    maxWidth: Option<MaxWidth>,
    padding: Option<Size>,
    center: Option<bool>,
    className: Option<string>)

  /** `maxWidthClasses`: key `k` maps to `max-w-k`. */
  function MaxWidthClasses(w: MaxWidth): (r: string)
    ensures r == "max-w-" + w.Key()
  {
    match w
    case MaxSm => "max-w-sm"
    case MaxMd => "max-w-md"
    case MaxLg => "max-w-lg"
    case MaxXl => "max-w-xl"
    case Max2xl => "max-w-2xl"
    case MaxFull => "max-w-full"
  }

  /** `paddingClasses`: horizontal padding only. */
  function PaddingClasses(s: Size): (r: string)
    ensures StartsWith(r, "px-")
  {
    match s
    case Xs => "px-2"
    case Sm => "px-4"
    case Md => "px-6"
    case Lg => "px-8"
    case Xl => "px-10"
  }

  /** `baseClasses`: full width, max width, padding, and `mx-auto` when centred. */
  function ClassFragments(w: MaxWidth, s: Size, center: bool): (r: seq<ClassValue>)
    ensures |r| == 4
    ensures r[0] == Classes(["w-full"]) && r[1] == Classes([MaxWidthClasses(w)]) && r[2] == Classes([PaddingClasses(s)])
    ensures r[3] == Gate(center, ["mx-auto"])
  {
    [Classes(["w-full"]), Classes([MaxWidthClasses(w)]), Classes([PaddingClasses(s)]), Gate(center, ["mx-auto"])]
  }

  /** The rendered `<div>`. */
  function Render(p: Props): (call: CnCall)
    ensures call.className == p.className
    ensures call.fragments == ClassFragments(p.maxWidth.GetOr(MaxXl), p.padding.GetOr(Md), p.center.GetOr(true))
  {
    CnCall(ClassFragments(p.maxWidth.GetOr(MaxXl), p.padding.GetOr(Md), p.center.GetOr(true)), p.className)
  }

  /** `mx-auto` is passed exactly when the container is centred, which it is unless `center` is `false`. */
  lemma Centering(p: Props)
    ensures Classes(["mx-auto"]) in Render(p).fragments <==> p.center != Some(false)
  {
    var r := Render(p).fragments;
    var w := p.maxWidth.GetOr(MaxXl);
    assert [MaxWidthClasses(w)] != ["mx-auto"] by {
      assert MaxWidthClasses(w)[1] == 'a';
    }
    assert [PaddingClasses(p.padding.GetOr(Md))] != ["mx-auto"] by {
      assert PaddingClasses(p.padding.GetOr(Md))[0] == 'p';
    }
  }

  /** A Container with no props: xl max width, md padding, centred. */
  lemma DefaultContainer()
    ensures Render(Props(None, None, None, None)).fragments ==
      [Classes(["w-full"]), Classes(["max-w-xl"]), Classes(["px-6"]), Classes(["mx-auto"])]
  {
  }
}
