/** The Card component: its class fragments and its keyboard-activation contract. */
module Card {
  import opened Wrappers
  import opened Strings
  import opened UiTypes
  import opened ClassList

  /** `CardProps`; `onClick` records whether a click handler was given. */
  datatype Props = Props(
    variant: Option<CardVariant>,
    padding: Option<Size>,
    interactive: Option<bool>,
    onClick: bool,
    className: Option<string>)

  /** `variantClasses`: a background first, then border and shadow settings. */
  function VariantClasses(v: CardVariant): (r: seq<string>)
    ensures 3 <= |r| <= 4 && StartsWith(r[0], "bg-")
  {
    match v
    case Elevated => ["bg-white", "shadow-lg", "border-0"]
    case Outlined => ["bg-white", "border", "border-neutral-200", "shadow-none"]
    case Filled => ["bg-neutral-50", "border-0", "shadow-none"]
  }

  /** `paddingClasses`: a single all-sides padding utility. */
  function PaddingClasses(s: Size): (r: seq<string>)
    ensures |r| == 1 && StartsWith(r[0], "p-")
  {
    match s
    case Xs => ["p-3"]
    case Sm => ["p-4"]
    case Md => ["p-6"]
    case Lg => ["p-8"]
    case Xl => ["p-10"]
  }

  const BaseTokens: seq<string> := ["rounded-lg"]
  const HoverTokens: seq<string> := ["cursor-pointer", "transition-transform", "duration-200", "hover:scale-105"]
  const FocusTokens: seq<string> := ["focus:outline-none", "focus:ring-2", "focus:ring-offset-2", "focus:ring-green-500"]

  /** `baseClasses`: rounding, variant, padding, then the two interactive-only fragments. */
  function ClassFragments(v: CardVariant, s: Size, interactive: bool): (r: seq<ClassValue>)
    ensures |r| == 5
    ensures r[0] == Classes(BaseTokens) && r[1] == Classes(VariantClasses(v)) && r[2] == Classes(PaddingClasses(s))
    ensures r[3] == Gate(interactive, HoverTokens) && r[4] == Gate(interactive, FocusTokens)
  {
    [ Classes(BaseTokens),
      Classes(VariantClasses(v)),
      Classes(PaddingClasses(s)),
      Gate(interactive, HoverTokens),
      Gate(interactive, FocusTokens) ]
  }

  /** What the `onKeyDown` handler does with a key: whether it prevents the default and calls `onClick`. */
  datatype KeyOutcome = KeyOutcome(preventDefault: bool, click: bool)

  /** The `onKeyDown` handler: Enter and Space activate the card, every other key is ignored. */
  function OnKeyDown(key: string): (k: KeyOutcome)
    ensures k.click <==> key == "Enter" || key == " "
    ensures k.preventDefault == k.click
  {
    if key == "Enter" || key == " " then KeyOutcome(true, true) else KeyOutcome(false, false)
  }

  /**
   * The props spread only onto an interactive card with a handler:
   * `onClick`, `role`, `tabIndex` and `onKeyDown` (which is `OnKeyDown`).
   */
  datatype Interaction = Interaction(role: string, tabIndex: int)

  /** The rendered `<div>`: the `cn` call and, when present, the interaction props. */
  datatype Element = Element(classes: CnCall, interaction: Option<Interaction>)

  function Render(p: Props): (e: Element)
    ensures e.classes.className == p.className
    ensures e.classes.fragments == ClassFragments(p.variant.GetOr(Elevated), p.padding.GetOr(Md), p.interactive == Some(true))
    ensures e.interaction.Some? <==> p.interactive == Some(true) && p.onClick
    ensures e.interaction.Some? ==> e.interaction.value == Interaction("button", 0)
  {
    var variant := p.variant.GetOr(Elevated);
    var padding := p.padding.GetOr(Md);
    var interactive := p.interactive.GetOr(false);
    Element(
      CnCall(ClassFragments(variant, padding, interactive), p.className),
      if interactive && p.onClick then Some(Interaction("button", 0)) else None)
  }

  /** Whether pressing `key` on a rendered card calls the caller's `onClick`. */
  function KeyActivates(e: Element, key: string): bool {
    e.interaction.Some? && OnKeyDown(key).click
  }

  /**
   * Enter or Space triggers the click handler exactly on an interactive card
   * that was given one; a card without the handler, or not interactive,
   * exposes no role, no tab stop and no key handler.
   */
  lemma KeyboardActivation(p: Props, key: string)
    ensures KeyActivates(Render(p), key) <==>
      p.interactive == Some(true) && p.onClick && (key == "Enter" || key == " ")
    ensures !(p.interactive == Some(true) && p.onClick) ==> Render(p).interaction == None
  {
  }

  /** The hover and focus-ring fragments are passed exactly when the card is interactive. */
  lemma InteractiveClasses(v: CardVariant, s: Size, interactive: bool)
    ensures var r := ClassFragments(v, s, interactive);
      && (Classes(HoverTokens) in r <==> interactive)
      && (Classes(FocusTokens) in r <==> interactive)
  {
    var r := ClassFragments(v, s, interactive);
    assert VariantClasses(v)[0][0] == 'b';
    assert |PaddingClasses(s)| == 1;
  }

  /** A Card with no props: elevated, md padding, not interactive. */
  lemma DefaultCard()
    ensures var e := Render(Props(None, None, None, false, None));
      && e.classes.fragments == [Classes(["rounded-lg"]), Classes(["bg-white", "shadow-lg", "border-0"]), Classes(["p-6"]), Off, Off]
      && e.interaction == None
  {
  }
}
