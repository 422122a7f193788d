/**
 * The few pieces of JavaScript value semantics that the class-name helpers
 * depend on: optional props, the values `cn` accepts, truthiness, the text
 * `join` writes for a value, and the `||`, `&&` and destructuring-default
 * operators as the components use them.
 */
module Js {

  /** A prop that may be left out: `None` is `undefined`. */
  datatype Option<T> = None | Some(value: T)

  /** A value passed to `cn`: a string, a boolean, or `undefined`/`null`. */
  datatype Arg = S(s: string) | B(b: bool) | Nil

  /** JavaScript truthiness (`Boolean(a)`) of a `cn` argument. */
  predicate Truthy(a: Arg) {
    match a
    case S(s) => s != ""
    case B(b) => b
    case Nil => false
  }

  /** The text `Array.prototype.join` writes for an element. */
  function Text(a: Arg): (r: string)
    ensures Truthy(a) ==> r != ""
  {
    match a
    case S(s) => s
    case B(b) => if b then "true" else "false"
    case Nil => ""
  }

  /** An optional string prop passed on to `cn`. */
  function OptArg(o: Option<string>): (r: Arg)
    ensures Truthy(r) <==> o.Some? && o.value != ""
    ensures Truthy(r) ==> Text(r) == o.value
  {
    match o
    case None => Nil
    case Some(s) => S(s)
  }

  /** `o || fallback` for an optional string: an empty string counts as absent.
      The result is truthy exactly when one of the operands is, and it is
      always one of them. */
  function Or(o: Option<string>, fallback: string): (r: string)
    ensures r != "" <==> (o.Some? && o.value != "") || fallback != ""
    ensures r == fallback || (o.Some? && r == o.value)
  {
    if o.Some? && o.value != "" then o.value else fallback
  }

  /** `flag && s` for an optional boolean flag and a string literal. */
  function And(flag: Option<bool>, s: string): (r: Arg)
    ensures Truthy(r) <==> flag == Some(true) && s != ""
    ensures flag == Some(true) ==> r == S(s)
  {
    match flag
    case None => Nil
    case Some(b) => if b then S(s) else B(false)
  }

  /** A destructuring default `{ x = d }`: it applies only when `x` is `undefined`. */
  function WithDefault<T>(o: Option<T>, d: T): T
  {
    match o
    case None => d
    case Some(v) => v
  }
}
