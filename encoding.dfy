/** How the feeds write the fields the clients read: the inverse of each
    coercion helper, used to state round trips. */
module Encoding {
  import opened Wrappers
  import opened Xml
  import opened Text
  import opened Fields

  /** An integer field in decimal, or nothing. */
  function IntText(i: Option<int>): Option<string> {
    match i
    case None => None
    case Some(n) => Some(FormatInt(n))
  }

  /** A float field as the literal it was read from, or nothing. */
  function FloatLiteral(x: Option<FloatText>): Option<string> {
    match x
    case None => None
    case Some(f) => Some(f.literal)
  }

  /** A flag as "1" or "0", or nothing. */
  function BoolText(b: Option<bool>): Option<string> {
    match b
    case None => None
    case Some(x) => Some(FormatBool(x))
  }

  /** An entry written only when there is something to write. */
  function Optional(tag: string, text: Option<string>): Entry {
    Entry(tag, text, text.Some?)
  }

  /** An entry always written, possibly empty. */
  function Required(tag: string, text: Option<string>): Entry {
    Entry(tag, text, true)
  }

  /** An optional integer field written by `IntText` reads back. */
  lemma ParseIntText(tag: string, i: Option<int>)
    ensures ParseInt(if i.Some? then Some(Leaf(tag, IntText(i))) else None) == Success(i)
  {
    if i.Some? { ParseFormatInt(i.value); }
  }

  /** An optional float field written by `FloatLiteral` reads back. */
  lemma ParseFloatLiteral(tag: string, f: Option<FloatText>)
    ensures ParseFloatNode(if f.Some? then Some(Leaf(tag, FloatLiteral(f))) else None) == Success(f)
  {
  }

  /** An optional boolean field written by `BoolText` reads back. */
  lemma ParseBoolText(b: Option<bool>)
    ensures ParseBool(BoolText(b)) == b
  {
  }

  /** The rail client's float reading inverts `FloatLiteral`. */
  lemma ParseFloatTextLiteral(f: Option<FloatText>)
    ensures ParseFloatText(FloatLiteral(f)) == f
  {
  }
}
