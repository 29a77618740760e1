/** The Button component: its class fragments and its derived attributes. */
module Button {
  import opened Wrappers
  import opened UiTypes
  import opened DesignSystem
  import opened ClassList

  /** `ButtonProps`; `onClick` records whether a click handler was given. */
  datatype Props = Props(
    variant: Option<ButtonVariant>,
    size: Option<Size>,
    color: Option<ColorVariant>,
    disabled: Option<bool>,
    loading: Option<bool>,
    fullWidth: Option<bool>,
    buttonType: Option<ButtonType>,
    className: Option<string>,
    onClick: bool)

  const BaseTokens: seq<string> := ["inline-flex", "items-center", "justify-center", "rounded-md", "font-medium"]
  const DisabledTokens: seq<string> := ["opacity-50", "cursor-not-allowed", "pointer-events-none"]
  const LoadingTokens: seq<string> := ["cursor-wait"]
  const FullWidthTokens: seq<string> := ["w-full"]
  const OutlineTokens: seq<string> := ["border"]
  const LinkTokens: seq<string> := ["underline-offset-4", "hover:underline"]

  /**
   * `colorVariants.button[variant]?.[color] || colorVariants.button.solid.primary`:
   * every typed pair has a non-empty entry, so the fallback is never taken.
   */
  function ColorFragment(v: ButtonVariant, c: ColorVariant): (r: seq<string>)
    ensures r == ButtonColor(v, c)
  {
    ButtonColorFocusRing(v, c);
    var entry := ButtonColor(v, c);
    if entry != [] then entry else ButtonColor(ButtonVariant.Solid, Primary)
  }

  /**
   * `baseClasses`: base, focus ring, transition, size, colour, then the
   * three state modifiers, then the outline and link extras.
   */
  function ClassFragments(v: ButtonVariant, s: Size, c: ColorVariant, disabled: bool, loading: bool, fullWidth: bool): (r: seq<ClassValue>)
    ensures |r| == 10
    ensures r[0] == Classes(BaseTokens) && r[1] == Classes(FocusRing) && r[2] == Classes(Transition)
    ensures r[3] == Classes(SizeMap(s)) && r[4] == Classes(ButtonColor(v, c))
    ensures r[5] == Gate(disabled, DisabledTokens) && r[6] == Gate(loading, LoadingTokens) && r[7] == Gate(fullWidth, FullWidthTokens)
    ensures r[8] == Gate(v.Outline?, OutlineTokens) && r[9] == Gate(v.Link?, LinkTokens)
  {
    [ Classes(BaseTokens),
      Classes(FocusRing),
      Classes(Transition),
      Classes(SizeMap(s)),
      Classes(ColorFragment(v, c)),
      Gate(disabled, DisabledTokens),
      Gate(loading, LoadingTokens),
      Gate(fullWidth, FullWidthTokens),
      Gate(v.Outline?, OutlineTokens),
      Gate(v.Link?, LinkTokens) ]
  }

  /** The rendered `<button>`: its type, the `cn` call, the two disabled attributes, the handler and the spinner. */
  datatype Element = Element(
    buttonType: ButtonType,
    classes: CnCall,
    disabled: bool,
    ariaDisabled: bool,
    onClick: bool,
    spinner: bool)

  function Render(p: Props): (e: Element)
    ensures e.buttonType == p.buttonType.GetOr(TypeButton)
    ensures e.classes.className == p.className
    ensures e.classes.fragments == ClassFragments(
      p.variant.GetOr(ButtonVariant.Solid), p.size.GetOr(Md), p.color.GetOr(Primary),
      p.disabled == Some(true), p.loading == Some(true), p.fullWidth == Some(true))
    ensures e.disabled == e.ariaDisabled == (p.disabled == Some(true) || p.loading == Some(true))
    ensures e.spinner <==> p.loading == Some(true)
    ensures e.onClick == p.onClick
  {
    var variant := p.variant.GetOr(ButtonVariant.Solid);
    var size := p.size.GetOr(Md);
    var color := p.color.GetOr(Primary);
    var disabled := p.disabled.GetOr(false);
    var loading := p.loading.GetOr(false);
    var fullWidth := p.fullWidth.GetOr(false);
    Element(
      p.buttonType.GetOr(TypeButton),
      CnCall(ClassFragments(variant, size, color, disabled, loading, fullWidth), p.className),
      disabled || loading,
      disabled || loading,
      p.onClick,
      loading)
  }

  /** A Button with no props: solid, md, primary, enabled, not full width, type `button`. */
  lemma DefaultButton()
    ensures var e := Render(Props(None, None, None, None, None, None, None, None, false));
      && e.buttonType == TypeButton
      && e.classes.fragments == ClassFragments(ButtonVariant.Solid, Md, Primary, false, false, false)
      && e.classes.fragments[3] == Classes(["text-base", "px-4", "py-2"])
      && e.classes.fragments[4] == Classes(["bg-green-600", "text-white", "hover:bg-green-700", "focus:ring-green-500"])
      && !e.disabled && !e.ariaDisabled && !e.spinner
  {
  }

  /** The disabled, loading and full-width classes are passed exactly when their flag is set. */
  lemma StateClasses(v: ButtonVariant, s: Size, c: ColorVariant, disabled: bool, loading: bool, fullWidth: bool)
    ensures var r := ClassFragments(v, s, c, disabled, loading, fullWidth);
      && (Classes(DisabledTokens) in r <==> disabled)
      && (Classes(LoadingTokens) in r <==> loading)
      && (Classes(FullWidthTokens) in r <==> fullWidth)
  {
    var r := ClassFragments(v, s, c, disabled, loading, fullWidth);
    SizeAndColorAreNotFlags(s, v, c);
  }

  /** The size and colour fragments never coincide with a state or variant-extra fragment. */
  lemma SizeAndColorAreNotFlags(s: Size, v: ButtonVariant, c: ColorVariant)
    ensures SizeMap(s) !in [DisabledTokens, LoadingTokens, FullWidthTokens, OutlineTokens, LinkTokens]
    ensures ButtonColor(v, c) !in [DisabledTokens, LoadingTokens, FullWidthTokens, OutlineTokens, LinkTokens]
  {
    var sz := SizeMap(s);
    assert sz[0][0] == 't';
    var col := ButtonColor(v, c);
    ButtonColorFocusRing(v, c);
    assert col[|col| - 1][0] == 'f';
  }

  /** `border` is passed exactly for the outline variant and the underline classes exactly for the link variant. */
  lemma VariantExtras(v: ButtonVariant, s: Size, c: ColorVariant, disabled: bool, loading: bool, fullWidth: bool)
    ensures var r := ClassFragments(v, s, c, disabled, loading, fullWidth);
      && (Classes(OutlineTokens) in r <==> v.Outline?)
      && (Classes(LinkTokens) in r <==> v.Link?)
  {
    SizeAndColorAreNotFlags(s, v, c);
  }

  /**
   * A loading button that is not disabled is disabled natively and for
   * assistive technology, yet does not take on the disabled look.
   */
  lemma LoadingIsDisabledWithoutDisabledLook(p: Props)
    requires p.loading == Some(true) && p.disabled != Some(true)
    ensures var e := Render(p);
      e.disabled && e.ariaDisabled && e.spinner && !Applies(e.classes, DisabledTokens)
  {
    var e := Render(p);
    StateClasses(p.variant.GetOr(ButtonVariant.Solid), p.size.GetOr(Md), p.color.GetOr(Primary), false, true, p.fullWidth == Some(true));
  }

  /**
   * The landing page's "Start Free Trial" button: the primary solid
   * background reaches `cn` together with the caller's
   * `transform hover:scale-105`, which comes after it.
   */
  lemma StartTrialButton()
    ensures var e := Render(Props(None, Some(Lg), Some(Primary), None, None, None, None, Some("transform hover:scale-105"), true));
      && e.classes.fragments[4].tokens[0] == "bg-green-600"
      && e.classes.className == Some("transform hover:scale-105")
      && !e.disabled && e.onClick
  {
  }
}
