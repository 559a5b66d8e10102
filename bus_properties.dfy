/** What the bus client promises, stated against responses built from
    records: a response listing records parses back to those records, an
    error report wins over everything else, and an absent optional field
    is None rather than a failure. */
module BusProperties {
  import opened Wrappers
  import opened Xml
  import opened Text
  import opened Fields
  import opened Bus
  import opened Encoding
  import Strptime
  import StrptimeLemmas

  const VehicleTags: seq<string> := ["vid", "tmstamp", "lat", "lon", "hdg", "pid", "pdist", "rt", "des", "dly"]

  /** The children the feed would send for a vehicle record; fields that
      are None and that the client treats as optional are left out. */
  function VehicleEntries(x: Vehicle): (es: seq<Entry>)
    requires Strptime.Valid(x.timestamp)
    ensures |es| == |VehicleTags| && forall i | 0 <= i < |es| :: es[i].tag == VehicleTags[i]
  {
    [Required("vid", x.vehicleId), Required("tmstamp", Some(Strptime.FormatTime(x.timestamp))),
     Optional("lat", FloatLiteral(x.lat)), Optional("lon", FloatLiteral(x.lon)),
     Optional("hdg", IntText(x.heading)), Optional("pid", IntText(x.patternId)),
     Optional("pdist", IntText(x.patternDistance)),
     Required("rt", x.routeId), Required("des", x.destination),
     Optional("dly", BoolText(x.delayed))]
  }

  function VehicleElement(x: Vehicle): Node
    requires Strptime.Valid(x.timestamp)
  {
    Node("vehicle", None, Present(VehicleEntries(x)))
  }

  /** Where each field of a vehicle record ends up in its element. */
  lemma VehicleChildren(x: Vehicle)
    requires Strptime.Valid(x.timestamp)
    ensures var v := VehicleElement(x);
      && Find(v, "vid") == Some(Leaf("vid", x.vehicleId))
      && Find(v, "tmstamp") == Some(Leaf("tmstamp", Some(Strptime.FormatTime(x.timestamp))))
      && Find(v, "lat") == (if x.lat.Some? then Some(Leaf("lat", FloatLiteral(x.lat))) else None)
      && Find(v, "lon") == (if x.lon.Some? then Some(Leaf("lon", FloatLiteral(x.lon))) else None)
      && Find(v, "hdg") == (if x.heading.Some? then Some(Leaf("hdg", IntText(x.heading))) else None)
      && Find(v, "pid") == (if x.patternId.Some? then Some(Leaf("pid", IntText(x.patternId))) else None)
      && Find(v, "pdist") == (if x.patternDistance.Some? then Some(Leaf("pdist", IntText(x.patternDistance))) else None)
      && Find(v, "rt") == Some(Leaf("rt", x.routeId))
      && Find(v, "des") == Some(Leaf("des", x.destination))
      && Find(v, "dly") == (if x.delayed.Some? then Some(Leaf("dly", BoolText(x.delayed))) else None)
  {
    VehicleIdentityChildren(x);
    VehiclePatternChildren(x);
    VehicleRouteChildren(x);
  }

  lemma VehicleTagsDistinct()
    ensures Distinct(VehicleTags)
  {
  }

  /** The vehicle, its timestamp and its position. */
  lemma VehicleIdentityChildren(x: Vehicle)
    requires Strptime.Valid(x.timestamp)
    ensures var v := VehicleElement(x);
      && Find(v, "vid") == Some(Leaf("vid", x.vehicleId))
      && Find(v, "tmstamp") == Some(Leaf("tmstamp", Some(Strptime.FormatTime(x.timestamp))))
      && Find(v, "lat") == (if x.lat.Some? then Some(Leaf("lat", FloatLiteral(x.lat))) else None)
      && Find(v, "lon") == (if x.lon.Some? then Some(Leaf("lon", FloatLiteral(x.lon))) else None)
  {
    var es := VehicleEntries(x);
    VehicleTagsDistinct();
    FindEntry(es, VehicleTags, 0);
    FindEntry(es, VehicleTags, 1);
    FindEntry(es, VehicleTags, 2);
    FindEntry(es, VehicleTags, 3);
  }

  /** The heading and the pattern fields. */
  lemma VehiclePatternChildren(x: Vehicle)
    requires Strptime.Valid(x.timestamp)
    ensures var v := VehicleElement(x);
      && Find(v, "hdg") == (if x.heading.Some? then Some(Leaf("hdg", IntText(x.heading))) else None)
      && Find(v, "pid") == (if x.patternId.Some? then Some(Leaf("pid", IntText(x.patternId))) else None)
      && Find(v, "pdist") == (if x.patternDistance.Some? then Some(Leaf("pdist", IntText(x.patternDistance))) else None)
  {
    var es := VehicleEntries(x);
    VehicleTagsDistinct();
    FindEntry(es, VehicleTags, 4);
    FindEntry(es, VehicleTags, 5);
    FindEntry(es, VehicleTags, 6);
  }

  /** The route, destination and delay fields. */
  lemma VehicleRouteChildren(x: Vehicle)
    requires Strptime.Valid(x.timestamp)
    ensures var v := VehicleElement(x);
      && Find(v, "rt") == Some(Leaf("rt", x.routeId))
      && Find(v, "des") == Some(Leaf("des", x.destination))
      && Find(v, "dly") == (if x.delayed.Some? then Some(Leaf("dly", BoolText(x.delayed))) else None)
  {
    var es := VehicleEntries(x);
    VehicleTagsDistinct();
    FindEntry(es, VehicleTags, 7);
    FindEntry(es, VehicleTags, 8);
    FindEntry(es, VehicleTags, 9);
  }

  /** Every vehicle record with a valid timestamp survives being written
      out and read back. */
  lemma BuildVehicleOfElement(x: Vehicle)
    requires Strptime.Valid(x.timestamp)
    ensures BuildVehicle(VehicleElement(x)) == Success(x)
  {
    var v := VehicleElement(x);
    VehicleChildren(x);
    StrptimeLemmas.ParseFormat(x.timestamp);
    assert ChildText(v, "vid") == Success(x.vehicleId);
    assert ChildText(v, "tmstamp") == Success(Some(Strptime.FormatTime(x.timestamp)));
    assert ParseTimeText(Some(Strptime.FormatTime(x.timestamp))) == Success(x.timestamp);
    ParseFloatLiteral("lat", x.lat);
    ParseFloatLiteral("lon", x.lon);
    ParseIntText("hdg", x.heading);
    ParseIntText("pid", x.patternId);
    ParseIntText("pdist", x.patternDistance);
    assert ChildText(v, "rt") == Success(x.routeId);
    assert ChildText(v, "des") == Success(x.destination);
    assert OptionalText(v, "dly") == BoolText(x.delayed);
    ParseBoolText(x.delayed);
  }

  /** The timestamps every record must carry to be written out. */
  predicate Writable(xs: seq<Vehicle>) {
    forall i | 0 <= i < |xs| :: Strptime.Valid(xs[i].timestamp)
  }

  /** The `bustime-response` the feed would send for a list of vehicles. */
  function VehiclesResponse(xs: seq<Vehicle>): (root: Node)
    requires Writable(xs)
    ensures |root.children| == |xs|
    ensures forall i | 0 <= i < |xs| :: root.children[i] == VehicleElement(xs[i])
  {
    Node("bustime-response", None, seq(|xs|, i requires 0 <= i < |xs| => VehicleElement(xs[i])))
  }

  /** A vehicle element holds no other vehicle element. */
  lemma VehicleElementFlat(x: Vehicle)
    requires Strptime.Valid(x.timestamp)
    ensures Flat(VehicleElement(x), "vehicle")
  {
    var es := VehicleEntries(x);
    var cs := Present(es);
    assert VehicleElement(x).children == cs;
    NoVehicleTag();
    forall i | 0 <= i < |cs| ensures cs[i].tag != "vehicle" {
      var j :| 0 <= j < |es| && cs[i].tag == es[j].tag;
      assert VehicleTags[j] in VehicleTags;
    }
  }

  lemma NoVehicleTag()
    ensures "vehicle" !in VehicleTags
  {
  }

  /** A vehicles response carries no error and iterates to its own
      children. */
  lemma VehiclesResponseShape(xs: seq<Vehicle>)
    requires Writable(xs)
    ensures Find(VehiclesResponse(xs), "error").None?
    ensures Iter(VehiclesResponse(xs), "vehicle") == VehiclesResponse(xs).children
  {
    var root := VehiclesResponse(xs);
    assert forall i | 0 <= i < |root.children| :: root.children[i].tag != "error";
    FindInFirst(root.children, "error");
    forall i | 0 <= i < |xs| ensures Flat(root.children[i], "vehicle") {
      VehicleElementFlat(xs[i]);
    }
    IterAllRecords(root.children, "vehicle");
  }

  /** `get_vehicles` on a response listing vehicle records returns exactly
      those records, in order. */
  lemma GetVehiclesOfResponse(xs: seq<Vehicle>)
    requires Writable(xs)
    ensures GetVehicles(VehiclesResponse(xs)) == Success(xs)
  {
    var root := VehiclesResponse(xs);
    VehiclesResponseShape(xs);
    var vs := Iter(root, "vehicle");
    forall i | 0 <= i < |vs| ensures BuildVehicle(vs[i]) == Success(xs[i]) {
      BuildVehicleOfElement(xs[i]);
    }
    var r := GetVehicles(root);
    assert r.Success?;
    assert r.value == xs;
  }

  const PredictionTags: seq<string> := ["tmstamp", "typ", "stpid", "stpnm", "vid", "dstp", "rt", "rtdir", "des", "prdtm", "dly"]

  /** The children the feed would send for a prediction record. */
  function PredictionEntries(x: Prediction): (es: seq<Entry>)
    requires Strptime.Valid(x.timestamp) && Strptime.Valid(x.arrivalTime)
    ensures |es| == |PredictionTags| && forall i | 0 <= i < |es| :: es[i].tag == PredictionTags[i]
  {
    [Required("tmstamp", Some(Strptime.FormatTime(x.timestamp))), Required("typ", x.kind),
     Optional("stpid", IntText(x.stopId)), Required("stpnm", x.stopName),
     Required("vid", x.vehicleId), Optional("dstp", IntText(x.distanceRemaining)),
     Required("rt", x.routeId), Required("rtdir", x.routeDirection), Required("des", x.destination),
     Required("prdtm", Some(Strptime.FormatTime(x.arrivalTime))),
     Optional("dly", BoolText(x.delayed))]
  }

  function PredictionElement(x: Prediction): Node
    requires Strptime.Valid(x.timestamp) && Strptime.Valid(x.arrivalTime)
  {
    Node("prd", None, Present(PredictionEntries(x)))
  }

  /** Where each field of a prediction record ends up in its element. */
  lemma PredictionChildren(x: Prediction)
    requires Strptime.Valid(x.timestamp) && Strptime.Valid(x.arrivalTime)
    ensures var v := PredictionElement(x);
      && Find(v, "tmstamp") == Some(Leaf("tmstamp", Some(Strptime.FormatTime(x.timestamp))))
      && Find(v, "typ") == Some(Leaf("typ", x.kind))
      && Find(v, "stpid") == (if x.stopId.Some? then Some(Leaf("stpid", IntText(x.stopId))) else None)
      && Find(v, "stpnm") == Some(Leaf("stpnm", x.stopName))
      && Find(v, "vid") == Some(Leaf("vid", x.vehicleId))
      && Find(v, "dstp") == (if x.distanceRemaining.Some? then Some(Leaf("dstp", IntText(x.distanceRemaining))) else None)
      && Find(v, "rt") == Some(Leaf("rt", x.routeId))
      && Find(v, "rtdir") == Some(Leaf("rtdir", x.routeDirection))
      && Find(v, "des") == Some(Leaf("des", x.destination))
      && Find(v, "prdtm") == Some(Leaf("prdtm", Some(Strptime.FormatTime(x.arrivalTime))))
      && Find(v, "dly") == (if x.delayed.Some? then Some(Leaf("dly", BoolText(x.delayed))) else None)
  {
    PredictionStopChildren(x);
    PredictionVehicleChildren(x);
    PredictionArrivalChildren(x);
  }

  lemma PredictionTagsDistinct()
    ensures Distinct(PredictionTags)
  {
  }

  /** The timestamp, kind and stop fields. */
  lemma PredictionStopChildren(x: Prediction)
    requires Strptime.Valid(x.timestamp) && Strptime.Valid(x.arrivalTime)
    ensures var v := PredictionElement(x);
      && Find(v, "tmstamp") == Some(Leaf("tmstamp", Some(Strptime.FormatTime(x.timestamp))))
      && Find(v, "typ") == Some(Leaf("typ", x.kind))
      && Find(v, "stpid") == (if x.stopId.Some? then Some(Leaf("stpid", IntText(x.stopId))) else None)
      && Find(v, "stpnm") == Some(Leaf("stpnm", x.stopName))
  {
    var es := PredictionEntries(x);
    PredictionTagsDistinct();
    FindEntry(es, PredictionTags, 0);
    FindEntry(es, PredictionTags, 1);
    FindEntry(es, PredictionTags, 2);
    FindEntry(es, PredictionTags, 3);
  }

  /** The vehicle, distance and route fields. */
  lemma PredictionVehicleChildren(x: Prediction)
    requires Strptime.Valid(x.timestamp) && Strptime.Valid(x.arrivalTime)
    ensures var v := PredictionElement(x);
      && Find(v, "vid") == Some(Leaf("vid", x.vehicleId))
      && Find(v, "dstp") == (if x.distanceRemaining.Some? then Some(Leaf("dstp", IntText(x.distanceRemaining))) else None)
      && Find(v, "rt") == Some(Leaf("rt", x.routeId))
      && Find(v, "rtdir") == Some(Leaf("rtdir", x.routeDirection))
  {
    var es := PredictionEntries(x);
    PredictionTagsDistinct();
    FindEntry(es, PredictionTags, 4);
    FindEntry(es, PredictionTags, 5);
    FindEntry(es, PredictionTags, 6);
    FindEntry(es, PredictionTags, 7);
  }

  /** The destination, arrival time and delay fields. */
  lemma PredictionArrivalChildren(x: Prediction)
    requires Strptime.Valid(x.timestamp) && Strptime.Valid(x.arrivalTime)
    ensures var v := PredictionElement(x);
      && Find(v, "des") == Some(Leaf("des", x.destination))
      && Find(v, "prdtm") == Some(Leaf("prdtm", Some(Strptime.FormatTime(x.arrivalTime))))
      && Find(v, "dly") == (if x.delayed.Some? then Some(Leaf("dly", BoolText(x.delayed))) else None)
  {
    var es := PredictionEntries(x);
    PredictionTagsDistinct();
    FindEntry(es, PredictionTags, 8);
    FindEntry(es, PredictionTags, 9);
    FindEntry(es, PredictionTags, 10);
  }

  /** Every prediction record with valid times survives being written out
      and read back. */
  lemma BuildPredictionOfElement(x: Prediction)
    requires Strptime.Valid(x.timestamp) && Strptime.Valid(x.arrivalTime)
    ensures BuildPrediction(PredictionElement(x)) == Success(x)
  {
    var v := PredictionElement(x);
    PredictionChildren(x);
    StrptimeLemmas.ParseFormat(x.timestamp);
    StrptimeLemmas.ParseFormat(x.arrivalTime);
    assert ChildText(v, "tmstamp") == Success(Some(Strptime.FormatTime(x.timestamp)));
    assert ParseTimeText(Some(Strptime.FormatTime(x.timestamp))) == Success(x.timestamp);
    assert ChildText(v, "typ") == Success(x.kind);
    ParseIntText("stpid", x.stopId);
    assert ChildText(v, "stpnm") == Success(x.stopName);
    assert ChildText(v, "vid") == Success(x.vehicleId);
    ParseIntText("dstp", x.distanceRemaining);
    assert ChildText(v, "rt") == Success(x.routeId);
    assert ChildText(v, "rtdir") == Success(x.routeDirection);
    assert ChildText(v, "des") == Success(x.destination);
    assert ChildText(v, "prdtm") == Success(Some(Strptime.FormatTime(x.arrivalTime)));
    assert ParseTimeText(Some(Strptime.FormatTime(x.arrivalTime))) == Success(x.arrivalTime);
    assert OptionalText(v, "dly") == BoolText(x.delayed);
    ParseBoolText(x.delayed);
  }

  predicate WritablePredictions(xs: seq<Prediction>) {
    forall i | 0 <= i < |xs| :: Strptime.Valid(xs[i].timestamp) && Strptime.Valid(xs[i].arrivalTime)
  }

  /** The `bustime-response` the feed would send for a list of predictions. */
  function PredictionsResponse(xs: seq<Prediction>): (root: Node)
    requires WritablePredictions(xs)
    ensures |root.children| == |xs|
    ensures forall i | 0 <= i < |xs| :: root.children[i] == PredictionElement(xs[i])
  {
    Node("bustime-response", None, seq(|xs|, i requires 0 <= i < |xs| => PredictionElement(xs[i])))
  }

  lemma PredictionElementFlat(x: Prediction)
    requires Strptime.Valid(x.timestamp) && Strptime.Valid(x.arrivalTime)
    ensures Flat(PredictionElement(x), "prd")
  {
    var es := PredictionEntries(x);
    var cs := Present(es);
    assert PredictionElement(x).children == cs;
    NoPredictionTag();
    forall i | 0 <= i < |cs| ensures cs[i].tag != "prd" {
      var j :| 0 <= j < |es| && cs[i].tag == es[j].tag;
      assert PredictionTags[j] in PredictionTags;
    }
  }

  lemma NoPredictionTag()
    ensures "prd" !in PredictionTags
  {
  }

  lemma PredictionsResponseShape(xs: seq<Prediction>)
    requires WritablePredictions(xs)
    ensures Find(PredictionsResponse(xs), "error").None?
    ensures Iter(PredictionsResponse(xs), "prd") == PredictionsResponse(xs).children
  {
    var root := PredictionsResponse(xs);
    assert forall i | 0 <= i < |root.children| :: root.children[i].tag != "error";
    FindInFirst(root.children, "error");
    forall i | 0 <= i < |xs| ensures Flat(root.children[i], "prd") {
      PredictionElementFlat(xs[i]);
    }
    IterAllRecords(root.children, "prd");
  }

  /** `get_predictions` on a response listing prediction records returns
      exactly those records, in order. */
  lemma GetPredictionsOfResponse(xs: seq<Prediction>)
    requires WritablePredictions(xs)
    ensures GetPredictions(PredictionsResponse(xs)) == Success(xs)
  {
    var root := PredictionsResponse(xs);
    PredictionsResponseShape(xs);
    var ps := Iter(root, "prd");
    forall i | 0 <= i < |ps| ensures BuildPrediction(ps[i]) == Success(xs[i]) {
      BuildPredictionOfElement(xs[i]);
    }
    var r := GetPredictions(root);
    assert r.Success?;
    assert r.value == xs;
  }

  /** The answer `gettime` gives. */
  function TimeResponse(t: Strptime.DateTime): Node
    requires Strptime.Valid(t)
  {
    Node("bustime-response", None, [Leaf("tm", Some(Strptime.FormatTime(t)))])
  }

  /** `get_time` returns the server time the response states. */
  lemma GetTimeOfResponse(t: Strptime.DateTime)
    requires Strptime.Valid(t)
    ensures GetTime(TimeResponse(t)) == Success(t)
  {
    FindInFirst(TimeResponse(t).children, "error");
    StrptimeLemmas.ParseFormat(t);
  }

  /** An `error` element carrying a message. */
  function ErrorElement(msg: string): Node {
    Node("error", None, [Leaf("msg", Some(msg))])
  }

  /** An error report placed before anything else wins over whatever else
      the response holds: every endpoint raises it with the feed's message. */
  lemma ErrorWins(tag: string, msg: string, rest: seq<Node>)
    ensures var root := Node(tag, None, [ErrorElement(msg)] + rest);
      && GetTime(root) == Failure(RemoteError(Some(msg)))
      && GetVehicles(root) == Failure(RemoteError(Some(msg)))
      && GetPredictions(root) == Failure(RemoteError(Some(msg)))
  {
    var root := Node(tag, None, [ErrorElement(msg)] + rest);
    assert root.children[0] == ErrorElement(msg);
    assert Find(ErrorElement(msg), "msg") == Some(Leaf("msg", Some(msg)));
  }

  /** The feed's answer to `gettime` when the service is down: the message
      is raised and `tm` is never read. */
  lemma SystemOffline()
    ensures GetTime(Node("bustime-response", None, [ErrorElement("System offline")])) ==
      Failure(RemoteError(Some("System offline")))
  {
    ErrorWins("bustime-response", "System offline", []);
    assert [ErrorElement("System offline")] + [] == [ErrorElement("System offline")];
  }

  /** An empty id list is not sent; a non-empty one is comma-joined. */
  lemma VehiclesPayloadExample()
    ensures Query(VehiclesPayload("k", Some([]), Some(["22", "36"]))) == map["key" := "k", "rt" := "22,36"]
  {
    var q := Query(VehiclesPayload("k", Some([]), Some(["22", "36"])));
    assert Join(["22", "36"], ',') == "22,36";
    assert q.Keys == {"key", "rt"};
  }
}
