/**
 * The closed enumerations the components accept. Each datatype lists the
 * members of one string-literal union; `Key()` is the literal itself.
 */
module UiTypes {

  /** `Size` */
  datatype Size = Xs | Sm | Md | Lg | Xl {
    function Key(): string {
      match this
      case Xs => "xs"
      case Sm => "sm"
      case Md => "md"
      case Lg => "lg"
      case Xl => "xl"
    }
  }

  /** `ColorVariant` */
  datatype ColorVariant = Primary | Secondary | Success | Warning | Error | Neutral {
    function Key(): string {
      match this
      case Primary => "primary"
      case Secondary => "secondary"
      case Success => "success"
      case Warning => "warning"
      case Error => "error"
      case Neutral => "neutral"
    }
  }

  const AllSizes: seq<Size> := [Xs, Sm, Md, Lg, Xl]
  const AllColors: seq<ColorVariant> := [Primary, Secondary, Success, Warning, Error, Neutral]

  /** `ButtonProps.variant` */
  datatype ButtonVariant = Solid | Outline | Ghost | Link

  /** `ButtonProps.type`, the native button type. */
  datatype ButtonType = TypeButton | TypeSubmit | TypeReset {
    function Key(): string {
      match this
      case TypeButton => "button"
      case TypeSubmit => "submit"
      case TypeReset => "reset"
    }
  }

  /** `CardProps.variant` */
  datatype CardVariant = Elevated | Outlined | Filled

  /** `BadgeProps.variant` */
  datatype BadgeVariant = Solid | Outline | Soft

  /** `IconProps.size`: a named size or a number of pixels. */
  datatype IconSize = Named(size: Size) | Pixels(px: int)

  /** `weight` of Text and Heading */
  datatype Weight = Normal | Medium | Semibold | Bold {
    function Key(): string {
      match this
      case Normal => "normal"
      case Medium => "medium"
      case Semibold => "semibold"
      case Bold => "bold"
    }
  }

  /** `ColorVariant | 'inherit'`, the colour of Text and Heading. */
  datatype TextColor = Inherit | Tint(color: ColorVariant)

  /** `align` of Text and Heading */
  datatype Align = Left | Center | Right {
    function Key(): string {
      match this
      case Left => "left"
      case Center => "center"
      case Right => "right"
    }
  }

  /** `TextProps.as`, the element Text renders. */
  datatype TextTag = P | Span | Div {
    function Key(): string {
      match this
      case P => "p"
      case Span => "span"
      case Div => "div"
    }
  }

  /** `HeadingProps.level` */
  type HeadingLevel = l: int | 1 <= l <= 6 witness 2

  /** `ContainerProps.maxWidth` */
  datatype MaxWidth = MaxSm | MaxMd | MaxLg | MaxXl | Max2xl | MaxFull {
    function Key(): string {
      match this
      case MaxSm => "sm"
      case MaxMd => "md"
      case MaxLg => "lg"
      case MaxXl => "xl"
      case Max2xl => "2xl"
      case MaxFull => "full"
    }
  }

  /** `Size` has exactly five members, each with its own key. */
  lemma SizesEnumerated(s: Size, t: Size)
    ensures |AllSizes| == 5 && s in AllSizes
    ensures s.Key() == t.Key() ==> s == t
  {
  }

  /** `ColorVariant` has exactly six members, each with its own key. */
  lemma ColorsEnumerated(c: ColorVariant, d: ColorVariant)
    ensures |AllColors| == 6 && c in AllColors
    ensures c.Key() == d.Key() ==> c == d
  {
  }

  /** The six `maxWidth` keys are pairwise distinct. */
  lemma MaxWidthKeysDistinct(a: MaxWidth, b: MaxWidth)
    ensures a.Key() == b.Key() ==> a == b
  {
  }
}
