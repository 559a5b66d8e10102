/** The rail client (`Train` in trains.py): the `ttarrivals` payload, the
    error-code check, and the records built from `eta` elements. The
    operation takes the already-parsed root element of the response. */
module Train {
  import opened Wrappers
  import opened Xml
  import opened Fields
  import Strptime

  /** `arrivals`'s payload: every argument passed through as it is, the
      API key always. */
  function ArrivalsPayload(key: string, mapId: Option<string>, stopId: Option<string>,
                           maxResults: Option<string>, routeId: Option<string>): (p: Payload)
    ensures p.Keys == {"mapid", "stpid", "max", "rt", "key"}
    ensures "key" in Query(p) && Query(p)["key"] == key
    ensures "mapid" in Query(p) <==> mapId.Some?
    ensures "stpid" in Query(p) <==> stopId.Some?
    ensures "max" in Query(p) <==> maxResults.Some?
    ensures "rt" in Query(p) <==> routeId.Some?
    ensures mapId.Some? ==> Query(p)["mapid"] == mapId.value
    ensures stopId.Some? ==> Query(p)["stpid"] == stopId.value
    ensures maxResults.Some? ==> Query(p)["max"] == maxResults.value
    ensures routeId.Some? ==> Query(p)["rt"] == routeId.value
  {
    map["mapid" := mapId, "stpid" := stopId, "max" := maxResults, "rt" := routeId, "key" := Some(key)]
  }

  /** The check every rail response goes through before anything else is
      read: the text of `errCd` must be exactly "0"; otherwise the call
      fails with the text of `errNm`. Either child missing is an
      AttributeError. */
  function CheckError(root: Node): (r: Result<(), Failure>)
    ensures Find(root, "errCd").None? ==> r == Failure(MissingElement)
    ensures Find(root, "errCd").Some? ==> (r.Success? <==> Find(root, "errCd").value.text == Some("0"))
    ensures r.Failure? && Find(root, "errCd").Some? ==>
      r.error == (if Find(root, "errNm").Some? then RemoteError(Find(root, "errNm").value.text) else MissingElement)
  {
    var code :- ChildText(root, "errCd");
    if code != Some("0") then
      var name :- ChildText(root, "errNm");
      Failure(RemoteError(name))
    else
      Success(())
  }

  /** One `eta` element as `build_eta_dict` returns it. */
  datatype Eta = Eta(
    stationId: Option<string>,
    stopId: Option<string>,
    stationName: Option<string>,
    stopDescription: Option<string>,
    routeName: Option<string>,
    destinationStopId: Option<string>,
    destinationName: Option<string>,
    direction: Option<string>,
    predictionTime: Strptime.DateTime,
    arrivalTime: Strptime.DateTime,
    approaching: Option<bool>,
    scheduled: Option<bool>,
    fault: Option<bool>,
    delayed: Option<bool>,
    lat: Option<FloatText>,
    lon: Option<FloatText>,
    heading: Option<FloatText>)

  /** Every child `build_eta_dict` reads is there. */
  predicate Complete(e: Node) {
    && Find(e, "staId").Some? && Find(e, "stpId").Some? && Find(e, "staNm").Some?
    && Find(e, "stpDe").Some? && Find(e, "rt").Some? && Find(e, "destSt").Some?
    && Find(e, "destNm").Some? && Find(e, "trDr").Some? && Find(e, "prdt").Some?
    && Find(e, "arrT").Some? && Find(e, "isApp").Some? && Find(e, "isSch").Some?
    && Find(e, "isFlt").Some? && Find(e, "isDly").Some? && Find(e, "lat").Some?
    && Find(e, "lon").Some? && Find(e, "heading").Some?
  }

  /** `build_eta_dict`: every field is `eta.find(tag).text`, so a missing
      child is an AttributeError; the two times must parse, the flags and
      coordinates never fail. Fields are read in the order of the dict
      literal; the first failure is the one raised. */
  function BuildEta(e: Node): (r: Result<Eta, Failure>)
    ensures r.Success? ==>
      && Complete(e)
      && r.value.stationId == OptionalText(e, "staId")
      && r.value.stopId == OptionalText(e, "stpId")
      && r.value.stationName == OptionalText(e, "staNm")
      && r.value.stopDescription == OptionalText(e, "stpDe")
      && r.value.routeName == OptionalText(e, "rt")
      && r.value.destinationStopId == OptionalText(e, "destSt")
      && r.value.destinationName == OptionalText(e, "destNm")
      && r.value.direction == OptionalText(e, "trDr")
      && ParseTimeText(OptionalText(e, "prdt")) == Success(r.value.predictionTime)
      && ParseTimeText(OptionalText(e, "arrT")) == Success(r.value.arrivalTime)
      && r.value.approaching == ParseBool(OptionalText(e, "isApp"))
      && r.value.scheduled == ParseBool(OptionalText(e, "isSch"))
      && r.value.fault == ParseBool(OptionalText(e, "isFlt"))
      && r.value.delayed == ParseBool(OptionalText(e, "isDly"))
      && r.value.lat == ParseFloatText(OptionalText(e, "lat"))
      && r.value.lon == ParseFloatText(OptionalText(e, "lon"))
      && r.value.heading == ParseFloatText(OptionalText(e, "heading"))
    ensures Find(e, "staId").None? ==> r == Failure(MissingElement)
  {
    var staId :- ChildText(e, "staId");
    var stpId :- ChildText(e, "stpId");
    var staNm :- ChildText(e, "staNm");
    var stpDe :- ChildText(e, "stpDe");
    var rt :- ChildText(e, "rt");
    var destSt :- ChildText(e, "destSt");
    var destNm :- ChildText(e, "destNm");
    var trDr :- ChildText(e, "trDr");
    var prdtText :- ChildText(e, "prdt");
    var prdt :- ParseTimeText(prdtText);
    var arrTText :- ChildText(e, "arrT");
    var arrT :- ParseTimeText(arrTText);
    var isApp :- ChildText(e, "isApp");
    var isSch :- ChildText(e, "isSch");
    var isFlt :- ChildText(e, "isFlt");
    var isDly :- ChildText(e, "isDly");
    var lat :- ChildText(e, "lat");
    var lon :- ChildText(e, "lon");
    var heading :- ChildText(e, "heading");
    Success(Eta(staId, stpId, staNm, stpDe, rt, destSt, destNm, trDr, prdt, arrT,
                ParseBool(isApp), ParseBool(isSch), ParseBool(isFlt), ParseBool(isDly),
                ParseFloatText(lat), ParseFloatText(lon), ParseFloatText(heading)))
  }

  /** An `eta` element yields a record exactly when every child is there
      and both times parse. */
  lemma BuildEtaSucceeds(e: Node)
    ensures BuildEta(e).Success? <==>
      && Complete(e)
      && ParseTimeText(OptionalText(e, "prdt")).Success?
      && ParseTimeText(OptionalText(e, "arrT")).Success?
  {
  }

  /** `arrivals`: once the error code says the request succeeded, one
      record per `eta` element of the whole response, in document order,
      or the failure of the first element whose record cannot be built. */
  function Arrivals(root: Node): (r: Result<seq<Eta>, Failure>)
    ensures CheckError(root).Failure? ==> r == Failure(CheckError(root).error)
    ensures CheckError(root).Success? ==>
      (r.Success? <==> forall i | 0 <= i < |Iter(root, "eta")| :: BuildEta(Iter(root, "eta")[i]).Success?)
    ensures r.Success? ==>
      && |r.value| == |Iter(root, "eta")|
      && forall i | 0 <= i < |r.value| :: BuildEta(Iter(root, "eta")[i]) == Success(r.value[i])
    ensures CheckError(root).Success? && r.Failure? ==>
      exists i | 0 <= i < |Iter(root, "eta")| ::
        && BuildEta(Iter(root, "eta")[i]) == Failure(r.error)
        && forall j | 0 <= j < i :: BuildEta(Iter(root, "eta")[j]).Success?
  {
    var _ :- CheckError(root);
    var xs := Iter(root, "eta");
    var r := BuildAll(BuildEta, xs);
    assert (forall i | 0 <= i < |xs| :: BuildEta(xs[i]).Success?) ==> r.Success?;
    r
  }
}
