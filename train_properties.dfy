/** What the rail client promises, stated against responses built from
    records: a successful response listing arrivals parses back to those
    arrivals, and a non-zero error code wins over everything else. */
module TrainProperties {
  import opened Wrappers
  import opened Xml
  import opened Fields
  import opened Encoding
  import opened Train
  import Strptime
  import StrptimeLemmas

  /** The children `build_eta_dict` reads, in the order it reads them. */
  const EtaTags: seq<string> := ["staId", "stpId", "staNm", "stpDe", "rt", "destSt", "destNm", "trDr",
                                 "prdt", "arrT", "isApp", "isSch", "isFlt", "isDly", "lat", "lon", "heading"]

  /** The children the feed would send for an arrival; every one is
      written, empty when the field is None. */
  function EtaEntries(x: Eta): (es: seq<Entry>)
    requires Strptime.Valid(x.predictionTime) && Strptime.Valid(x.arrivalTime)
    ensures |es| == |EtaTags| && forall i | 0 <= i < |es| :: es[i].tag == EtaTags[i]
  {
    [Required("staId", x.stationId), Required("stpId", x.stopId), Required("staNm", x.stationName),
     Required("stpDe", x.stopDescription), Required("rt", x.routeName),
     Required("destSt", x.destinationStopId), Required("destNm", x.destinationName),
     Required("trDr", x.direction),
     Required("prdt", Some(Strptime.FormatTime(x.predictionTime))),
     Required("arrT", Some(Strptime.FormatTime(x.arrivalTime))),
     Required("isApp", BoolText(x.approaching)), Required("isSch", BoolText(x.scheduled)),
     Required("isFlt", BoolText(x.fault)), Required("isDly", BoolText(x.delayed)),
     Required("lat", FloatLiteral(x.lat)), Required("lon", FloatLiteral(x.lon)),
     Required("heading", FloatLiteral(x.heading))]
  }

  function EtaElement(x: Eta): Node
    requires Strptime.Valid(x.predictionTime) && Strptime.Valid(x.arrivalTime)
  {
    Node("eta", None, Present(EtaEntries(x)))
  }

  lemma EtaTagsDistinct()
    ensures Distinct(EtaTags)
  {
  }

  /** Where each field of an arrival ends up in its element. */
  lemma EtaChildren(x: Eta)
    requires Strptime.Valid(x.predictionTime) && Strptime.Valid(x.arrivalTime)
    ensures var e := EtaElement(x);
      && Find(e, "staId") == Some(Leaf("staId", x.stationId))
      && Find(e, "stpId") == Some(Leaf("stpId", x.stopId))
      && Find(e, "staNm") == Some(Leaf("staNm", x.stationName))
      && Find(e, "stpDe") == Some(Leaf("stpDe", x.stopDescription))
      && Find(e, "rt") == Some(Leaf("rt", x.routeName))
      && Find(e, "destSt") == Some(Leaf("destSt", x.destinationStopId))
      && Find(e, "destNm") == Some(Leaf("destNm", x.destinationName))
      && Find(e, "trDr") == Some(Leaf("trDr", x.direction))
      && Find(e, "prdt") == Some(Leaf("prdt", Some(Strptime.FormatTime(x.predictionTime))))
      && Find(e, "arrT") == Some(Leaf("arrT", Some(Strptime.FormatTime(x.arrivalTime))))
      && Find(e, "isApp") == Some(Leaf("isApp", BoolText(x.approaching)))
      && Find(e, "isSch") == Some(Leaf("isSch", BoolText(x.scheduled)))
      && Find(e, "isFlt") == Some(Leaf("isFlt", BoolText(x.fault)))
      && Find(e, "isDly") == Some(Leaf("isDly", BoolText(x.delayed)))
      && Find(e, "lat") == Some(Leaf("lat", FloatLiteral(x.lat)))
      && Find(e, "lon") == Some(Leaf("lon", FloatLiteral(x.lon)))
      && Find(e, "heading") == Some(Leaf("heading", FloatLiteral(x.heading)))
  {
    EtaStationChildren(x);
    EtaRouteChildren(x);
    EtaTimeChildren(x);
    EtaFlagChildren(x);
    EtaPositionChildren(x);
  }

  /** The station and stop fields. */
  lemma EtaStationChildren(x: Eta)
    requires Strptime.Valid(x.predictionTime) && Strptime.Valid(x.arrivalTime)
    ensures var e := EtaElement(x);
      && Find(e, "staId") == Some(Leaf("staId", x.stationId))
      && Find(e, "stpId") == Some(Leaf("stpId", x.stopId))
      && Find(e, "staNm") == Some(Leaf("staNm", x.stationName))
      && Find(e, "stpDe") == Some(Leaf("stpDe", x.stopDescription))
  {
    var es := EtaEntries(x);
    EtaTagsDistinct();
    FindEntry(es, EtaTags, 0);
    FindEntry(es, EtaTags, 1);
    FindEntry(es, EtaTags, 2);
    FindEntry(es, EtaTags, 3);
  }

  /** The route and destination fields. */
  lemma EtaRouteChildren(x: Eta)
    requires Strptime.Valid(x.predictionTime) && Strptime.Valid(x.arrivalTime)
    ensures var e := EtaElement(x);
      && Find(e, "rt") == Some(Leaf("rt", x.routeName))
      && Find(e, "destSt") == Some(Leaf("destSt", x.destinationStopId))
      && Find(e, "destNm") == Some(Leaf("destNm", x.destinationName))
      && Find(e, "trDr") == Some(Leaf("trDr", x.direction))
  {
    var es := EtaEntries(x);
    EtaTagsDistinct();
    FindEntry(es, EtaTags, 4);
    FindEntry(es, EtaTags, 5);
    FindEntry(es, EtaTags, 6);
    FindEntry(es, EtaTags, 7);
  }

  /** The two times. */
  lemma EtaTimeChildren(x: Eta)
    requires Strptime.Valid(x.predictionTime) && Strptime.Valid(x.arrivalTime)
    ensures var e := EtaElement(x);
      && Find(e, "prdt") == Some(Leaf("prdt", Some(Strptime.FormatTime(x.predictionTime))))
      && Find(e, "arrT") == Some(Leaf("arrT", Some(Strptime.FormatTime(x.arrivalTime))))
  {
    var es := EtaEntries(x);
    EtaTagsDistinct();
    FindEntry(es, EtaTags, 8);
    FindEntry(es, EtaTags, 9);
  }

  /** The four flags. */
  lemma EtaFlagChildren(x: Eta)
    requires Strptime.Valid(x.predictionTime) && Strptime.Valid(x.arrivalTime)
    ensures var e := EtaElement(x);
      && Find(e, "isApp") == Some(Leaf("isApp", BoolText(x.approaching)))
      && Find(e, "isSch") == Some(Leaf("isSch", BoolText(x.scheduled)))
      && Find(e, "isFlt") == Some(Leaf("isFlt", BoolText(x.fault)))
      && Find(e, "isDly") == Some(Leaf("isDly", BoolText(x.delayed)))
  {
    var es := EtaEntries(x);
    EtaTagsDistinct();
    FindEntry(es, EtaTags, 10);
    FindEntry(es, EtaTags, 11);
    FindEntry(es, EtaTags, 12);
    FindEntry(es, EtaTags, 13);
  }

  /** The position fields. */
  lemma EtaPositionChildren(x: Eta)
    requires Strptime.Valid(x.predictionTime) && Strptime.Valid(x.arrivalTime)
    ensures var e := EtaElement(x);
      && Find(e, "lat") == Some(Leaf("lat", FloatLiteral(x.lat)))
      && Find(e, "lon") == Some(Leaf("lon", FloatLiteral(x.lon)))
      && Find(e, "heading") == Some(Leaf("heading", FloatLiteral(x.heading)))
  {
    var es := EtaEntries(x);
    EtaTagsDistinct();
    FindEntry(es, EtaTags, 14);
    FindEntry(es, EtaTags, 15);
    FindEntry(es, EtaTags, 16);
  }

  /** Every arrival with valid times survives being written out and read
      back. */
  lemma BuildEtaOfElement(x: Eta)
    requires Strptime.Valid(x.predictionTime) && Strptime.Valid(x.arrivalTime)
    ensures BuildEta(EtaElement(x)) == Success(x)
  {
    var e := EtaElement(x);
    EtaChildren(x);
    StrptimeLemmas.ParseFormat(x.predictionTime);
    StrptimeLemmas.ParseFormat(x.arrivalTime);
    assert ChildText(e, "staId") == Success(x.stationId);
    assert ChildText(e, "stpId") == Success(x.stopId);
    assert ChildText(e, "staNm") == Success(x.stationName);
    assert ChildText(e, "stpDe") == Success(x.stopDescription);
    assert ChildText(e, "rt") == Success(x.routeName);
    assert ChildText(e, "destSt") == Success(x.destinationStopId);
    assert ChildText(e, "destNm") == Success(x.destinationName);
    assert ChildText(e, "trDr") == Success(x.direction);
    assert ChildText(e, "prdt") == Success(Some(Strptime.FormatTime(x.predictionTime)));
    assert ChildText(e, "arrT") == Success(Some(Strptime.FormatTime(x.arrivalTime)));
    assert ChildText(e, "isApp") == Success(BoolText(x.approaching));
    assert ChildText(e, "isSch") == Success(BoolText(x.scheduled));
    assert ChildText(e, "isFlt") == Success(BoolText(x.fault));
    assert ChildText(e, "isDly") == Success(BoolText(x.delayed));
    assert ChildText(e, "lat") == Success(FloatLiteral(x.lat));
    assert ChildText(e, "lon") == Success(FloatLiteral(x.lon));
    assert ChildText(e, "heading") == Success(FloatLiteral(x.heading));
    assert ParseTimeText(Some(Strptime.FormatTime(x.predictionTime))) == Success(x.predictionTime);
    assert ParseTimeText(Some(Strptime.FormatTime(x.arrivalTime))) == Success(x.arrivalTime);
    ParseBoolText(x.approaching);
    ParseBoolText(x.scheduled);
    ParseBoolText(x.fault);
    ParseBoolText(x.delayed);
    ParseFloatTextLiteral(x.lat);
    ParseFloatTextLiteral(x.lon);
    ParseFloatTextLiteral(x.heading);
  }

  predicate Writable(xs: seq<Eta>) {
    forall i | 0 <= i < |xs| :: Strptime.Valid(xs[i].predictionTime) && Strptime.Valid(xs[i].arrivalTime)
  }

  /** The status children a successful answer starts with. */
  const SuccessHeader: seq<Node> := [Leaf("errCd", Some("0")), Leaf("errNm", None)]

  /** The `ctatt` answer the feed would send for a list of arrivals. */
  function ArrivalsResponse(xs: seq<Eta>): (root: Node)
    requires Writable(xs)
  {
    Node("ctatt", None, SuccessHeader + EtaElements(xs))
  }

  /** The `eta` elements of a list of arrivals, in order. */
  function EtaElements(xs: seq<Eta>): (cs: seq<Node>)
    requires Writable(xs)
    ensures |cs| == |xs| && forall i | 0 <= i < |xs| :: cs[i] == EtaElement(xs[i])
  {
    seq(|xs|, i requires 0 <= i < |xs| => EtaElement(xs[i]))
  }

  lemma EtaElementFlat(x: Eta)
    requires Strptime.Valid(x.predictionTime) && Strptime.Valid(x.arrivalTime)
    ensures Flat(EtaElement(x), "eta")
  {
    var es := EtaEntries(x);
    var cs := Present(es);
    assert EtaElement(x).children == cs;
    NoEtaTag();
    forall i | 0 <= i < |cs| ensures cs[i].tag != "eta" {
      var j :| 0 <= j < |es| && cs[i].tag == es[j].tag;
      assert EtaTags[j] in EtaTags;
    }
  }

  lemma NoEtaTag()
    ensures "eta" !in EtaTags
  {
  }

  /** A successful answer passes the error check and iterates to its
      arrival elements. */
  lemma ArrivalsResponseShape(xs: seq<Eta>)
    requires Writable(xs)
    ensures CheckError(ArrivalsResponse(xs)).Success?
    ensures Iter(ArrivalsResponse(xs), "eta") == EtaElements(xs)
  {
    SuccessHeaderFirst(EtaElements(xs));
    ArrivalsIter(xs);
  }

  /** The error check reads the success header. */
  lemma SuccessHeaderFirst(etas: seq<Node>)
    ensures CheckError(Node("ctatt", None, SuccessHeader + etas)).Success?
  {
    FindInAppend(SuccessHeader, etas, "errCd");
  }

  lemma ArrivalsIter(xs: seq<Eta>)
    requires Writable(xs)
    ensures Iter(ArrivalsResponse(xs), "eta") == EtaElements(xs)
  {
    var etas := EtaElements(xs);
    forall i | 0 <= i < |xs| ensures Flat(etas[i], "eta") {
      EtaElementFlat(xs[i]);
    }
    IterAllRecords(etas, "eta");
    HeaderIter();
    IterAllAppend(SuccessHeader, etas, "eta");
  }

  lemma HeaderIter()
    ensures IterAll(SuccessHeader, "eta") == []
  {
    IterAllLeaves(SuccessHeader, "eta");
  }

  /** `arrivals` on a successful answer listing arrivals returns exactly
      those arrivals, in order. */
  lemma ArrivalsOfResponse(xs: seq<Eta>)
    requires Writable(xs)
    ensures Arrivals(ArrivalsResponse(xs)) == Success(xs)
  {
    var root := ArrivalsResponse(xs);
    ArrivalsResponseShape(xs);
    var es := Iter(root, "eta");
    forall i | 0 <= i < |es| ensures BuildEta(es[i]) == Success(xs[i]) {
      BuildEtaOfElement(xs[i]);
    }
    var r := Arrivals(root);
    assert r.value == xs;
  }

  /** A non-zero error code wins over whatever else the answer holds: the
      call fails with the error name, and no arrival is read. */
  lemma ErrorCodeWins(code: string, name: Option<string>, rest: seq<Node>)
    requires code != "0"
    ensures Arrivals(Node("ctatt", None, [Leaf("errCd", Some(code)), Leaf("errNm", name)] + rest)) ==
      Failure(RemoteError(name))
  {
    var header := [Leaf("errCd", Some(code)), Leaf("errNm", name)];
    FindInAppend(header, rest, "errCd");
    FindInAppend(header, rest, "errNm");
  }

  /** The answer to a request with a bad key. */
  lemma InvalidKey()
    ensures Arrivals(Node("ctatt", None, [Leaf("errCd", Some("101")), Leaf("errNm", Some("Invalid API key"))])) ==
      Failure(RemoteError(Some("Invalid API key")))
  {
    ErrorCodeWins("101", Some("Invalid API key"), []);
    assert [Leaf("errCd", Some("101")), Leaf("errNm", Some("Invalid API key"))] + [] ==
      [Leaf("errCd", Some("101")), Leaf("errNm", Some("Invalid API key"))];
  }

  /** An answer without an error code is an AttributeError, however many
      arrivals it lists. */
  lemma MissingErrorCode(rest: seq<Node>)
    requires forall i | 0 <= i < |rest| :: rest[i].tag != "errCd"
    ensures Arrivals(Node("ctatt", None, rest)) == Failure(MissingElement)
  {
    FindInFirst(rest, "errCd");
  }
}
