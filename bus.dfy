/** The bus client (`BusTracker` in ctaapi/busses.py; busses.py is an
    earlier copy of the same class without `get_predictions`): the query
    payload of each endpoint, the error check every response goes through,
    and the records built from `vehicle` and `prd` elements. Every
    operation takes the already-parsed root element of the response. */
module Bus {
  import opened Wrappers
  import opened Xml
  import opened Text
  import opened Fields
  import Strptime

  /** `get_time`'s payload: the API key only. */
  function TimePayload(key: string): (p: Payload)
    ensures Query(p) == map["key" := key]
  {
    map["key" := Some(key)]
  }

  /** `get_vehicles`'s payload. */
  function VehiclesPayload(key: string, vehicleIds: Option<seq<string>>, routeIds: Option<seq<string>>): (p: Payload)
    ensures p.Keys == {"key", "vid", "rt"}
    ensures "key" in Query(p) && Query(p)["key"] == key
    ensures "vid" in Query(p) <==> vehicleIds.Some? && vehicleIds.value != []
    ensures "vid" in Query(p) ==> Query(p)["vid"] == Join(vehicleIds.value, ',')
    ensures "rt" in Query(p) <==> routeIds.Some? && routeIds.value != []
    ensures "rt" in Query(p) ==> Query(p)["rt"] == Join(routeIds.value, ',')
  {
    map["key" := Some(key), "vid" := FilterValue(vehicleIds), "rt" := FilterValue(routeIds)]
  }

  /** `get_predictions`'s payload; `top` is passed through as given. */
  function PredictionsPayload(key: string, stopIds: Option<seq<string>>, routeIds: Option<seq<string>>,
                              vehicleIds: Option<seq<string>>, maxResults: Option<string>): (p: Payload)
    ensures p.Keys == {"key", "stpid", "rt", "vid", "top"}
    ensures "key" in Query(p) && Query(p)["key"] == key
    ensures "stpid" in Query(p) <==> stopIds.Some? && stopIds.value != []
    ensures "stpid" in Query(p) ==> Query(p)["stpid"] == Join(stopIds.value, ',')
    ensures "rt" in Query(p) <==> routeIds.Some? && routeIds.value != []
    ensures "rt" in Query(p) ==> Query(p)["rt"] == Join(routeIds.value, ',')
    ensures "vid" in Query(p) <==> vehicleIds.Some? && vehicleIds.value != []
    ensures "vid" in Query(p) ==> Query(p)["vid"] == Join(vehicleIds.value, ',')
    ensures "top" in Query(p) <==> maxResults.Some?
    ensures "top" in Query(p) ==> Query(p)["top"] == maxResults.value
  {
    map["key" := Some(key), "stpid" := FilterValue(stopIds), "rt" := FilterValue(routeIds),
        "vid" := FilterValue(vehicleIds), "top" := maxResults]
  }

  /** The exception a response with an `error` child raises:
      `root.find('error').find('msg').text`, an AttributeError when the
      error has no `msg`. */
  function ErrorReport(e: Node): (f: Failure)
    ensures Find(e, "msg").Some? <==> f.RemoteError?
    ensures f.RemoteError? ==> f.message == Find(e, "msg").value.text
    ensures Find(e, "msg").None? ==> f == MissingElement
  {
    match Find(e, "msg")
    case None => MissingElement
    case Some(m) => RemoteError(m.text)
  }

  /** The check every bus response goes through before anything is read:
      any `error` child means failure. */
  function CheckError(root: Node): (r: Result<(), Failure>)
    ensures r.Success? <==> Find(root, "error").None?
    ensures r.Failure? ==> r.error == ErrorReport(Find(root, "error").value)
  {
    match Find(root, "error")
    case None => Success(())
    case Some(e) => Failure(ErrorReport(e))
  }

  /** `get_time`: the server time in `tm`. */
  function GetTime(root: Node): (r: Result<Strptime.DateTime, Failure>)
    ensures Find(root, "error").Some? ==> r == Failure(ErrorReport(Find(root, "error").value))
    ensures Find(root, "error").None? && Find(root, "tm").None? ==> r == Failure(MissingElement)
    ensures Find(root, "error").None? && Find(root, "tm").Some? ==>
      r == ParseTimeText(Find(root, "tm").value.text)
    ensures r.Success? ==> Strptime.Valid(r.value)
  {
    var _ :- CheckError(root);
    var tm :- ChildText(root, "tm");
    ParseTimeText(tm)
  }

  /** One `vehicle` element as `parseVehicle` returns it. */
  datatype Vehicle = Vehicle(
    vehicleId: Option<string>,
    timestamp: Strptime.DateTime,
    lat: Option<FloatText>,
    lon: Option<FloatText>,
    heading: Option<int>,
    patternId: Option<int>,
    patternDistance: Option<int>,
    routeId: Option<string>,
    destination: Option<string>,
    delayed: Option<bool>)

  /** How a builder hands fields to the helpers: `AsWritten` is the code
      of ctaapi/busses.py (element arguments to `parseTime` and
      `parseBool`, the `self.ParseInt` call); `Corrected` passes the
      child's text and calls `parseInt`. */
  datatype Reading = Corrected | AsWritten

  /** A timestamp field. Corrected: `parseTime(v.find(tag).text)`.
      As written: `parseTime(v.find(tag))`. */
  function TimeField(v: Node, tag: string, reading: Reading): (r: Result<Strptime.DateTime, Failure>)
    ensures reading == AsWritten ==> r == Failure(NotText)
    ensures reading == Corrected && Find(v, tag).None? ==> r == Failure(MissingElement)
    ensures reading == Corrected && Find(v, tag).Some? ==> r == ParseTimeText(Find(v, tag).value.text)
  {
    match reading
    case AsWritten => ParseTimeArgument(FoundArgument(Find(v, tag)))
    case Corrected =>
      var t :- ChildText(v, tag);
      ParseTimeText(t)
  }

  /** A boolean field. Corrected: `parseBool` of the child's text, None
      when the child is absent. As written: `parseBool(v.find(tag))`. */
  function BoolField(v: Node, tag: string, reading: Reading): (r: Option<bool>)
    ensures reading == AsWritten ==> r.None?
    ensures reading == Corrected ==> r == ParseBool(OptionalText(v, tag))
  {
    match reading
    case AsWritten => ParseBoolArgument(FoundArgument(Find(v, tag)))
    case Corrected => ParseBoolArgument(Text(OptionalText(v, tag)))
  }

  /** `parseVehicle`, fields read in the order of the dict literal; the
      first failure is the one raised. */
  function BuildVehicleBy(v: Node, reading: Reading): (r: Result<Vehicle, Failure>)
    ensures Find(v, "vid").None? ==> r == Failure(MissingElement)
    ensures reading == AsWritten && Find(v, "vid").Some? ==> r == Failure(NotText)
  {
    var vid :- ChildText(v, "vid");
    var timestamp :- TimeField(v, "tmstamp", reading);
    var lat :- ParseFloatNode(Find(v, "lat"));
    var lon :- ParseFloatNode(Find(v, "lon"));
    var heading :- ParseInt(Find(v, "hdg"));
    var pid :- ParseInt(Find(v, "pid"));
    var pdist :- ParseInt(Find(v, "pdist"));
    var rt :- ChildText(v, "rt");
    var des :- ChildText(v, "des");
    Success(Vehicle(vid, timestamp, lat, lon, heading, pid, pdist, rt, des, BoolField(v, "dly", reading)))
  }

  /** `parseVehicle` reading the `tmstamp` and `dly` children's text. */
  function BuildVehicle(v: Node): (r: Result<Vehicle, Failure>)
    ensures r.Success? ==> Find(v, "vid").Some? && r.value.vehicleId == Find(v, "vid").value.text
    ensures r.Success? ==> Find(v, "rt").Some? && r.value.routeId == Find(v, "rt").value.text
    ensures r.Success? ==> Find(v, "des").Some? && r.value.destination == Find(v, "des").value.text
    ensures r.Success? ==> ParseTimeText(OptionalText(v, "tmstamp")) == Success(r.value.timestamp)
    ensures r.Success? ==> ParseFloatNode(Find(v, "lat")) == Success(r.value.lat)
    ensures r.Success? ==> ParseFloatNode(Find(v, "lon")) == Success(r.value.lon)
    ensures r.Success? ==> ParseInt(Find(v, "hdg")) == Success(r.value.heading)
    ensures r.Success? ==> ParseInt(Find(v, "pid")) == Success(r.value.patternId)
    ensures r.Success? ==> ParseInt(Find(v, "pdist")) == Success(r.value.patternDistance)
    ensures r.Success? ==> r.value.delayed == ParseBool(OptionalText(v, "dly"))
    ensures Find(v, "vid").None? ==> r == Failure(MissingElement)
  {
    BuildVehicleBy(v, Corrected)
  }

  /** A `vehicle` element yields a record exactly when `vid`, `rt` and
      `des` are there, the timestamp parses and the numeric fields, absent
      or present, convert. */
  lemma BuildVehicleSucceeds(v: Node)
    ensures BuildVehicle(v).Success? <==>
      && Find(v, "vid").Some?
      && ParseTimeText(OptionalText(v, "tmstamp")).Success?
      && ParseFloatNode(Find(v, "lat")).Success?
      && ParseFloatNode(Find(v, "lon")).Success?
      && ParseInt(Find(v, "hdg")).Success?
      && ParseInt(Find(v, "pid")).Success?
      && ParseInt(Find(v, "pdist")).Success?
      && Find(v, "rt").Some?
      && Find(v, "des").Some?
  {
  }

  /** `get_vehicles`: one record per `vehicle` element of the whole
      response, in document order, unless the response reports an error. */
  function GetVehicles(root: Node): (r: Result<seq<Vehicle>, Failure>)
    ensures Find(root, "error").Some? ==> r == Failure(ErrorReport(Find(root, "error").value))
    ensures Find(root, "error").None? ==>
      (r.Success? <==> forall i | 0 <= i < |Iter(root, "vehicle")| :: BuildVehicle(Iter(root, "vehicle")[i]).Success?)
    ensures r.Success? ==>
      && |r.value| == |Iter(root, "vehicle")|
      && forall i | 0 <= i < |r.value| :: BuildVehicle(Iter(root, "vehicle")[i]) == Success(r.value[i])
    ensures Find(root, "error").None? && r.Failure? ==>
      exists i | 0 <= i < |Iter(root, "vehicle")| ::
        && BuildVehicle(Iter(root, "vehicle")[i]) == Failure(r.error)
        && forall j | 0 <= j < i :: BuildVehicle(Iter(root, "vehicle")[j]).Success?
  {
    var _ :- CheckError(root);
    var xs := Iter(root, "vehicle");
    var r := BuildAll(BuildVehicle, xs);
    assert (forall i | 0 <= i < |xs| :: BuildVehicle(xs[i]).Success?) ==> r.Success?;
    r
  }

  /** One `prd` element as `parsePrediction` returns it. */
  datatype Prediction = Prediction(
    timestamp: Strptime.DateTime,
    kind: Option<string>,
    stopId: Option<int>,
    stopName: Option<string>,
    vehicleId: Option<string>,
    distanceRemaining: Option<int>,
    routeId: Option<string>,
    routeDirection: Option<string>,
    destination: Option<string>,
    arrivalTime: Strptime.DateTime,
    delayed: Option<bool>)

  /** The `distance_remaining` field. Corrected: `parseInt`. As written
      (ctaapi/busses.py:97): `self.ParseInt`, an AttributeError. */
  function DistanceField(v: Node, reading: Reading): (r: Result<Option<int>, Failure>)
    ensures reading == AsWritten ==> r == Failure(MissingMethod)
    ensures reading == Corrected ==> r == ParseInt(Find(v, "dstp"))
  {
    match reading
    case AsWritten => Failure(MissingMethod)
    case Corrected => ParseInt(Find(v, "dstp"))
  }

  /** `parsePrediction`, fields read in the order of the dict literal. */
  function BuildPredictionBy(v: Node, reading: Reading): (r: Result<Prediction, Failure>)
    ensures reading == AsWritten ==> r == Failure(NotText)
  {
    var timestamp :- TimeField(v, "tmstamp", reading);
    var typ :- ChildText(v, "typ");
    var stpid :- ParseInt(Find(v, "stpid"));
    var stpnm :- ChildText(v, "stpnm");
    var vid :- ChildText(v, "vid");
    var dstp :- DistanceField(v, reading);
    var rt :- ChildText(v, "rt");
    var rtdir :- ChildText(v, "rtdir");
    var des :- ChildText(v, "des");
    var arrival :- TimeField(v, "prdtm", reading);
    Success(Prediction(timestamp, typ, stpid, stpnm, vid, dstp, rt, rtdir, des, arrival,
                       BoolField(v, "dly", reading)))
  }

  /** `parsePrediction` reading the `tmstamp`, `prdtm` and `dly` children's
      text and calling `parseInt` for `dstp`. */
  function BuildPrediction(v: Node): (r: Result<Prediction, Failure>)
    ensures r.Success? ==> ParseTimeText(OptionalText(v, "tmstamp")) == Success(r.value.timestamp)
    ensures r.Success? ==> Find(v, "typ").Some? && r.value.kind == Find(v, "typ").value.text
    ensures r.Success? ==> ParseInt(Find(v, "stpid")) == Success(r.value.stopId)
    ensures r.Success? ==> Find(v, "stpnm").Some? && r.value.stopName == Find(v, "stpnm").value.text
    ensures r.Success? ==> Find(v, "vid").Some? && r.value.vehicleId == Find(v, "vid").value.text
    ensures r.Success? ==> ParseInt(Find(v, "dstp")) == Success(r.value.distanceRemaining)
    ensures r.Success? ==> Find(v, "rt").Some? && r.value.routeId == Find(v, "rt").value.text
    ensures r.Success? ==> Find(v, "rtdir").Some? && r.value.routeDirection == Find(v, "rtdir").value.text
    ensures r.Success? ==> Find(v, "des").Some? && r.value.destination == Find(v, "des").value.text
    ensures r.Success? ==> ParseTimeText(OptionalText(v, "prdtm")) == Success(r.value.arrivalTime)
    ensures r.Success? ==> r.value.delayed == ParseBool(OptionalText(v, "dly"))
    ensures Find(v, "tmstamp").None? ==> r == Failure(MissingElement)
  {
    BuildPredictionBy(v, Corrected)
  }

  /** A `prd` element yields a record exactly when its text fields are
      there, both times parse and both integers convert. */
  lemma BuildPredictionSucceeds(v: Node)
    ensures BuildPrediction(v).Success? <==>
      && ParseTimeText(OptionalText(v, "tmstamp")).Success?
      && Find(v, "typ").Some?
      && ParseInt(Find(v, "stpid")).Success?
      && Find(v, "stpnm").Some?
      && Find(v, "vid").Some?
      && ParseInt(Find(v, "dstp")).Success?
      && Find(v, "rt").Some?
      && Find(v, "rtdir").Some?
      && Find(v, "des").Some?
      && ParseTimeText(OptionalText(v, "prdtm")).Success?
  {
  }

  /** `get_predictions`: one record per `prd` element, in document order,
      unless the response reports an error. */
  function GetPredictions(root: Node): (r: Result<seq<Prediction>, Failure>)
    ensures Find(root, "error").Some? ==> r == Failure(ErrorReport(Find(root, "error").value))
    ensures Find(root, "error").None? ==>
      (r.Success? <==> forall i | 0 <= i < |Iter(root, "prd")| :: BuildPrediction(Iter(root, "prd")[i]).Success?)
    ensures r.Success? ==>
      && |r.value| == |Iter(root, "prd")|
      && forall i | 0 <= i < |r.value| :: BuildPrediction(Iter(root, "prd")[i]) == Success(r.value[i])
    ensures Find(root, "error").None? && r.Failure? ==>
      exists i | 0 <= i < |Iter(root, "prd")| ::
        && BuildPrediction(Iter(root, "prd")[i]) == Failure(r.error)
        && forall j | 0 <= j < i :: BuildPrediction(Iter(root, "prd")[j]).Success?
  {
    var _ :- CheckError(root);
    var xs := Iter(root, "prd");
    var r := BuildAll(BuildPrediction, xs);
    assert (forall i | 0 <= i < |xs| :: BuildPrediction(xs[i]).Success?) ==> r.Success?;
    r
  }
}
