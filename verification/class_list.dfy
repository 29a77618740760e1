/**
 * What a component hands to `cn`. `cn` itself (clsx followed by
 * tailwind-merge) is foreign code and is not modelled: the components are
 * specified by the arguments they pass it, in order.
 */
module ClassList {
  import opened Wrappers

  /**
   * One element of a component's `baseClasses` array: a class string, held
   * as its space-separated tokens, or a falsy value (`false`, `undefined`)
   * that contributes no class.
   */
  datatype ClassValue = Classes(tokens: seq<string>) | Off

  /** `condition && 'tokens'`: the classes when the condition holds, a falsy entry otherwise. */
  function Gate(condition: bool, tokens: seq<string>): (r: ClassValue)
    ensures r.Classes? <==> condition
    ensures r.Classes? ==> r.tokens == tokens
  {
    if condition then Classes(tokens) else Off
  }

  /**
   * The call `cn(baseClasses, className)`: the computed fragments in array
   * order, then the caller's own class string as the final argument, so
   * that the merge lets it win any conflict.
   */
  datatype CnCall = CnCall(fragments: seq<ClassValue>, className: Option<string>)

  /** The fragment `tokens` is one of the computed fragments passed to `cn`. */
  predicate Applies(call: CnCall, tokens: seq<string>) {
    Classes(tokens) in call.fragments
  }
}
