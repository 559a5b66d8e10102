/** The field-coercion helpers both clients share, the failures a call can
    end in, and the query payloads they hand to the transport. */
module Fields {
  import opened Wrappers
  import opened Xml
  import opened Text
  import Strptime

  /** How a call can fail: the feed's own error report, or a Python
      exception raised while reading the answer. */
  datatype Failure =
    | RemoteError(message: Option<string>) // BusTrackerException / TrainTrackerException with the feed's text
    | MissingElement                       // AttributeError: `.text` or `.find` on an element that is not there
    | NotText                              // TypeError: a conversion handed None instead of a string
    | BadTimestamp(reason: Strptime.TimeError) // ValueError from strptime
    | BadInteger                           // ValueError from int()
    | MissingMethod                        // AttributeError: a call to a method the class does not define

  /** `n.find(tag).text`: a missing child is an AttributeError. */
  function ChildText(n: Node, tag: string): (r: Result<Option<string>, Failure>)
    ensures r.Success? <==> Find(n, tag).Some?
    ensures r.Success? ==> r.value == Find(n, tag).value.text
    ensures r.Failure? ==> r.error == MissingElement
  {
    match Find(n, tag)
    case None => Failure(MissingElement)
    case Some(c) => Success(c.text)
  }

  /** The text of child `tag`, None when that child is absent or empty. */
  function OptionalText(n: Node, tag: string): Option<string> {
    match Find(n, tag)
    case None => None
    case Some(c) => c.text
  }

  /** `parseBool`: "1" is True, "0" is False, anything else (None
      included) is None. */
  function ParseBool(b: Option<string>): (r: Option<bool>)
    ensures r == Some(true) <==> b == Some("1")
    ensures r == Some(false) <==> b == Some("0")
    ensures r.None? <==> b != Some("1") && b != Some("0")
    ensures r.Some? ==> b == Some(FormatBool(r.value))
  {
    if b == Some("1") then Some(true)
    else if b == Some("0") then Some(false)
    else None
  }

  /** How the feed writes a boolean. */
  function FormatBool(x: bool): string {
    if x then "1" else "0"
  }

  /** The tri-state decoding inverts the feed's encoding. */
  lemma ParseFormatBool(x: bool)
    ensures ParseBool(Some(FormatBool(x))) == Some(x)
  {
  }

  /** `parseTime(text)`: strptime refuses None with a TypeError. */
  function ParseTimeText(t: Option<string>): (r: Result<Strptime.DateTime, Failure>)
    ensures t.None? ==> r == Failure(NotText)
    ensures t.Some? ==> (r.Success? <==> Strptime.ParseTime(t.value).Success?)
    ensures r.Success? ==> Strptime.Valid(r.value) && Strptime.ParseTime(t.value) == Success(r.value)
  {
    match t
    case None => Failure(NotText)
    case Some(s) =>
      match Strptime.ParseTime(s)
      case Success(v) => Success(v)
      case Failure(e) => Failure(BadTimestamp(e))
  }

  /** Any value a call site may hand to `parseTime` or `parseBool`: a
      string or None, or an element (Python does not check). */
  datatype Argument = Text(t: Option<string>) | Element(n: Node)

  /** The value of `v.find(tag)` passed on as it is: None or the element. */
  function FoundArgument(n: Option<Node>): (a: Argument)
    ensures n.None? <==> a == Text(None)
    ensures n.Some? ==> a == Element(n.value)
  {
    match n
    case None => Text(None)
    case Some(e) => Element(e)
  }

  /** `parseTime` on any value: strptime refuses an element as it refuses
      None, with a TypeError. */
  function ParseTimeArgument(a: Argument): (r: Result<Strptime.DateTime, Failure>)
    ensures a.Element? ==> r == Failure(NotText)
    ensures a.Text? ==> r == ParseTimeText(a.t)
  {
    match a
    case Text(t) => ParseTimeText(t)
    case Element(_) => Failure(NotText)
  }

  /** `parseBool` on any value: an element equals neither '1' nor '0'. */
  function ParseBoolArgument(a: Argument): (r: Option<bool>)
    ensures a.Element? ==> r.None?
    ensures a.Text? ==> r == ParseBool(a.t)
  {
    match a
    case Text(t) => ParseBool(t)
    case Element(_) => None
  }

  /** The bus client's `parseInt(node)`: an absent node is None; otherwise
      `int(node.text)`, where None text is a TypeError and non-numeric text
      a ValueError. */
  function ParseInt(node: Option<Node>): (r: Result<Option<int>, Failure>)
    ensures node.None? ==> r == Success(None)
    ensures node.Some? && node.value.text.None? ==> r == Failure(NotText)
    ensures node.Some? && node.value.text.Some? ==>
      match ParseDecimal(node.value.text.value)
      case Some(i) => r == Success(Some(i))
      case None => r == Failure(BadInteger)
  {
    match node
    case None => Success(None)
    case Some(n) =>
      match n.text
      case None => Failure(NotText)
      case Some(t) =>
        match ParseDecimal(t)
        case Some(i) => Success(Some(i))
        case None => Failure(BadInteger)
  }

  /** An element holding the decimal text of `i` reads back as `i`. */
  lemma ParseIntOfFormat(tag: string, i: int)
    ensures ParseInt(Some(Leaf(tag, Some(FormatInt(i))))) == Success(Some(i))
  {
    ParseFormatInt(i);
  }

  /** The text of a floating-point field, kept unconverted: the model does
      not interpret floats. */
  datatype FloatText = FloatText(literal: string)

  /** The bus client's `parseFloat(node)`: an absent node is None;
      otherwise `float(node.text)`, where None text is a TypeError. */
  function ParseFloatNode(node: Option<Node>): (r: Result<Option<FloatText>, Failure>)
    ensures node.None? ==> r == Success(None)
    ensures node.Some? ==> (r.Success? <==> node.value.text.Some?)
    ensures r.Success? && node.Some? ==> r.value == Some(FloatText(node.value.text.value))
  {
    match node
    case None => Success(None)
    case Some(n) =>
      match n.text
      case None => Failure(NotText)
      case Some(t) => Success(Some(FloatText(t)))
  }

  /** The rail client's `parseFloat(text)`: None stays None. */
  function ParseFloatText(t: Option<string>): (r: Option<FloatText>)
    ensures r.None? <==> t.None?
    ensures r.Some? ==> r.value.literal == t.value
  {
    match t
    case None => None
    case Some(s) => Some(FloatText(s))
  }

  /** Query parameters as the clients build them: a name mapped to a value,
      or to None for a parameter that is not sent. */
  type Payload = map<string, Option<string>>

  /** What the transport sends for a payload: the parameters whose value
      is not None. */
  function Query(p: Payload): (q: map<string, string>)
    ensures forall k :: k in q <==> k in p && p[k].Some?
    ensures forall k | k in q :: p[k] == Some(q[k])
  {
    map k | k in p && p[k].Some? :: p[k].value
  }

  /** `[f(x) for x in xs]`: the records in order, or the exception of the
      first element whose record cannot be built. */
  function BuildAll<A, B>(f: A -> Result<B, Failure>, xs: seq<A>): (r: Result<seq<B>, Failure>)
    ensures r.Success? <==> forall i | 0 <= i < |xs| :: f(xs[i]).Success?
    ensures r.Success? ==> |r.value| == |xs| && forall i | 0 <= i < |xs| :: f(xs[i]) == Success(r.value[i])
    ensures r.Failure? ==>
      exists i | 0 <= i < |xs| :: f(xs[i]) == Failure(r.error) && forall j | 0 <= j < i :: f(xs[j]).Success?
  {
    if xs == [] then Success([])
    else
      match f(xs[0])
      case Failure(e) => Failure(e)
      case Success(b) =>
        var rest := BuildAll(f, xs[1..]);
        assert forall i | 1 <= i < |xs| :: xs[i] == xs[1..][i - 1];
        match rest
        case Failure(e) => Failure(e)
        case Success(bs) => Success([b] + bs)
  }

  /** `','.join(ids) if ids else None`. */
  function FilterValue(ids: Option<seq<string>>): (r: Option<string>)
    ensures r.None? <==> ids.None? || ids.value == []
  {
    if ids.Some? && ids.value != [] then Some(Join(ids.value, ',')) else None
  }

  /** Ids without commas are recovered from the filter value by splitting
      it at the commas. */
  lemma FilterValueSplits(ids: seq<string>)
    requires ids != []
    requires forall i | 0 <= i < |ids| :: ',' !in ids[i]
    ensures FilterValue(Some(ids)).Some?
    ensures Split(FilterValue(Some(ids)).value, ',') == ids
  {
    SplitJoin(ids, ',');
  }
}
