/**
 * The part of Joi the request schemas use: string keys that are required or
 * optional, with a minimum and a maximum length. Validation stops at the first
 * failing key, in the order the schema declares its keys, and the 400 response
 * carries that failure's message, rendered with Joi's default templates.
 */
module Joi {
  import opened Wrappers
  import opened Strings
  import opened ErrorHandler

  datatype Rule =
    | Required          // any.required
    | Empty             // string.empty
    | Min(limit: nat)   // string.min
    | Max(limit: nat)   // string.max
    | Only(valids: string) // any.only
    | Email             // string.email

  /** The first failure of a validation (`error.details[0]`), with the label of the offending key. */
  datatype Detail = Detail(key: string, rule: Rule)

  function Quoted(key: string): string {
    "\"" + key + "\""
  }

  /** `error.details[0].message`. */
  function Message(f: Detail): (m: string)
    ensures StartsWith(m, Quoted(f.key))
  {
    var q := Quoted(f.key);
    var m := match f.rule
      case Required => q + " is required"
      case Empty => q + " is not allowed to be empty"
      case Min(n) => q + " length must be at least " + Decimal(n) + " characters long"
      case Max(n) => q + " length must be less than or equal to " + Decimal(n) + " characters long"
      case Only(vs) => q + " must be one of [" + vs + "]"
      case Email => q + " must be a valid email";
    assert m[..|q|] == q;
    m
  }

  /**
   * `Joi.string()` with `.required()` when `required`, `.min(min)` and, when
   * given, `.max(max)`: a missing value fails only if required, the empty
   * string always fails, then the length bounds are checked.
   */
  function CheckString(key: string, v: Option<string>, required: bool, min: nat, max: Option<nat>): (r: Option<Detail>)
    ensures r.None? <==> (v.None? && !required) || (v.Some? && v.value != "" && min <= |v.value| && (max.None? || |v.value| <= max.value))
    ensures r.Some? ==> r.value.key == key
    ensures r == Some(Detail(key, Required)) <==> v.None? && required
  {
    match v
    case None => if required then Some(Detail(key, Required)) else None
    case Some(s) =>
      if s == "" then Some(Detail(key, Empty))
      else if |s| < min then Some(Detail(key, Min(min)))
      else if max.Some? && |s| > max.value then Some(Detail(key, Max(max.value)))
      else None
  }

  /**
   * A simplified `string().email()`: no white space, exactly one `@` with a
   * non-empty local part before it, and a domain after it with a dot that is
   * neither its first nor its last character.
   */
  predicate IsEmail(s: string) {
    && HasNoSpace(s)
    && exists i :: 0 < i < |s| && s[i] == '@' && '@' !in s[..i] && ValidDomain(s[i + 1..])
  }

  predicate ValidDomain(d: string) {
    && '@' !in d
    && exists j :: 0 < j < |d| - 1 && d[j] == '.'
  }

  /** `Joi.string().email().required()`. */
  function CheckEmail(key: string, v: Option<string>): (r: Option<Detail>)
    ensures r.None? <==> v.Some? && v.value != "" && IsEmail(v.value)
    ensures r.Some? ==> r.value.key == key
  {
    match CheckString(key, v, true, 0, None)
    case Some(f) => Some(f)
    case None => if IsEmail(v.value) then None else Some(Detail(key, Email))
  }

  /** A body that fails validation is answered with 400 and the first failure's message. */
  function BadRequest(d: Detail): (e: HttpError)
    ensures e.status == 400 && e.body.details.None?
    ensures StartsWith(e.body.error, Quoted(d.key))
  {
    Reject(400, Message(d))
  }
}
