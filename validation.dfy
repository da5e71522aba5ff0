// The part of Zod's object schemas that the controllers rely on: every field
// rule is checked, and each violated rule contributes one issue
// `{ path, message }`, in the order the fields and their rules are declared.

module Validation {

  import opened Wrappers
  import Text

  /** One element of an issue's `path`: an object key or an array index. */
  datatype PathKey = Key(name: string) | Index(pos: nat)

  /** A Zod issue, reduced to the two parts the application reads. */
  datatype Issue = Issue(path: seq<PathKey>, message: string)

  /** Zod's message for a required field that is absent. */
  const RequiredMessage := "Required"
  /** Zod's message when `.int()` meets a fractional number. */
  const IntegerMessage := "Expected integer, received float"

  /** An issue on the top-level field `field`. */
  function At(field: string, message: string): (i: Issue)
    ensures i.path == [Key(field)] && i.message == message
  {
    Issue([Key(field)], message)
  }

  /** A number with no fractional part (`Number.isInteger`). */
  predicate IsInteger(x: real)
  {
    x.Floor as real == x
  }

  /** `z.string().min(n, message)`, optional or not. */
  function TextRule(field: string, v: Option<string>, required: bool, minLen: nat, message: string): (r: seq<Issue>)
    ensures |r| <= 1
    ensures r == [] <==> match v
                         case None => !required
                         case Some(s) => |s| >= minLen
  {
    match v
    case None => if required then [At(field, RequiredMessage)] else []
    case Some(s) => if |s| < minLen then [At(field, message)] else []
  }

  /** Zod's message for a value outside an enum. */
  function EnumMessage(names: seq<string>, received: string): string
  {
    "Invalid enum value. Expected " + Text.Join(Quoted(names), " | ") + ", received '" + received + "'"
  }

  function Quoted(names: seq<string>): (r: seq<string>)
    ensures |r| == |names|
  {
    if names == [] then [] else ["'" + names[0] + "'"] + Quoted(names[1..])
  }

  /** `z.enum(names)`, optional or not: absent, or one of `names`. */
  function EnumRule(field: string, v: Option<string>, required: bool, names: seq<string>): (r: seq<Issue>)
    ensures |r| <= 1
    ensures r == [] <==> match v
                         case None => !required
                         case Some(s) => s in names
  {
    match v
    case None => if required then [At(field, RequiredMessage)] else []
    case Some(s) => if s in names then [] else [At(field, EnumMessage(names, s))]
  }

  /** `z.number()` followed by the optional checks `.int()`, `.min(lo)`, `.max(hi)`.
      Zod runs every check of a number, so a value can fail several at once. */
  function NumberRule(field: string, v: Option<real>, required: bool, integer: bool,
                      lo: Option<real>, loMessage: string,
                      hi: Option<real>, hiMessage: string): (r: seq<Issue>)
    ensures r == [] <==> match v
                         case None => !required
                         case Some(x) => (integer ==> IsInteger(x))
                                         && (lo.Some? ==> lo.value <= x)
                                         && (hi.Some? ==> x <= hi.value)
  {
    match v
    case None => if required then [At(field, RequiredMessage)] else []
    case Some(x) =>
      (if integer && !IsInteger(x) then [At(field, IntegerMessage)] else [])
      + (if lo.Some? && x < lo.value then [At(field, loMessage)] else [])
      + (if hi.Some? && x > hi.value then [At(field, hiMessage)] else [])
  }
}
