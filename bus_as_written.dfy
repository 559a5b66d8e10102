/** The bus record builders exactly as ctaapi/busses.py and busses.py
    write them: `parseTime` is handed the `tmstamp` (and `prdtm`) element
    rather than its text, so no record can ever be built, and a response
    succeeds only when it holds no record at all. */
module BusAsWritten {
  import opened Wrappers
  import opened Xml
  import opened Fields
  import opened Bus
  import Text
  import BusProperties
  import Strptime

  /** `parseVehicle` as written (ctaapi/busses.py:58-70). */
  function BuildVehicleAsWritten(v: Node): (r: Result<Vehicle, Failure>)
    ensures Find(v, "vid").None? ==> r == Failure(MissingElement)
    ensures Find(v, "vid").Some? ==> r == Failure(NotText)
  {
    BuildVehicleBy(v, AsWritten)
  }

  /** `get_vehicles` as written: it can only return the empty list. */
  function GetVehiclesAsWritten(root: Node): (r: Result<seq<Vehicle>, Failure>)
    ensures Find(root, "error").Some? ==> r == Failure(ErrorReport(Find(root, "error").value))
    ensures Find(root, "error").None? ==> (r.Success? <==> Iter(root, "vehicle") == [])
    ensures r.Success? ==> r.value == []
    ensures Find(root, "error").None? && Iter(root, "vehicle") != [] ==>
      r == Failure(if Find(Iter(root, "vehicle")[0], "vid").None? then MissingElement else NotText)
  {
    var _ :- CheckError(root);
    var xs := Iter(root, "vehicle");
    var r := BuildAll(BuildVehicleAsWritten, xs);
    assert xs != [] ==> BuildVehicleAsWritten(xs[0]).Failure?;
    r
  }

  /** `parsePrediction` as written (ctaapi/busses.py:90-103): line 92
      already raises, so the `self.ParseInt` of line 97 is never reached. */
  function BuildPredictionAsWritten(v: Node): (r: Result<Prediction, Failure>)
    ensures r == Failure(NotText)
  {
    BuildPredictionBy(v, AsWritten)
  }

  /** `get_predictions` as written: it can only return the empty list. */
  function GetPredictionsAsWritten(root: Node): (r: Result<seq<Prediction>, Failure>)
    ensures Find(root, "error").Some? ==> r == Failure(ErrorReport(Find(root, "error").value))
    ensures Find(root, "error").None? ==> (r.Success? <==> Iter(root, "prd") == [])
    ensures r.Success? ==> r.value == []
    ensures Find(root, "error").None? && Iter(root, "prd") != [] ==> r == Failure(NotText)
  {
    var _ :- CheckError(root);
    var xs := Iter(root, "prd");
    var r := BuildAll(BuildPredictionAsWritten, xs);
    assert xs != [] ==> BuildPredictionAsWritten(xs[0]).Failure?;
    r
  }

  /** The smallest answer that shows the difference: one well-formed
      vehicle. As written the call raises a TypeError; corrected it
      returns the record. */
  lemma OneVehicle(x: Vehicle)
    requires Strptime.Valid(x.timestamp)
    ensures GetVehiclesAsWritten(BusProperties.VehiclesResponse([x])) == Failure(NotText)
    ensures GetVehicles(BusProperties.VehiclesResponse([x])) == Success([x])
  {
    var root := BusProperties.VehiclesResponse([x]);
    BusProperties.VehiclesResponseShape([x]);
    BusProperties.VehicleIdentityChildren(x);
    BusProperties.GetVehiclesOfResponse([x]);
    assert Iter(root, "vehicle")[0] == BusProperties.VehicleElement(x);
  }

  /** Likewise for one well-formed prediction. */
  lemma OnePrediction(x: Prediction)
    requires Strptime.Valid(x.timestamp) && Strptime.Valid(x.arrivalTime)
    ensures GetPredictionsAsWritten(BusProperties.PredictionsResponse([x])) == Failure(NotText)
    ensures GetPredictions(BusProperties.PredictionsResponse([x])) == Success([x])
  {
    var root := BusProperties.PredictionsResponse([x]);
    BusProperties.PredictionsResponseShape([x]);
    BusProperties.GetPredictionsOfResponse([x]);
    assert |Iter(root, "prd")| == 1;
  }

  /** ctaapi/busses.py:69 and :102: a `dly` child reading "1" is not seen,
      because the element itself is compared with '1'. */
  lemma DelayedFlag()
    ensures BoolField(Node("vehicle", None, [Leaf("dly", Some("1"))]), "dly", AsWritten) == None
    ensures BoolField(Node("vehicle", None, [Leaf("dly", Some("1"))]), "dly", Corrected) == Some(true)
  {
    assert Find(Node("vehicle", None, [Leaf("dly", Some("1"))]), "dly") == Some(Leaf("dly", Some("1")));
  }

  /** ctaapi/busses.py:97: a well-formed `dstp` child still ends the call,
      because the method it names does not exist. */
  lemma DistanceCall()
    ensures DistanceField(Node("prd", None, [Leaf("dstp", Some(Text.FormatInt(120)))]), AsWritten) == Failure(MissingMethod)
    ensures DistanceField(Node("prd", None, [Leaf("dstp", Some(Text.FormatInt(120)))]), Corrected) == Success(Some(120))
  {
    var v := Node("prd", None, [Leaf("dstp", Some(Text.FormatInt(120)))]);
    assert Find(v, "dstp") == Some(Leaf("dstp", Some(Text.FormatInt(120))));
    ParseIntOfFormat("dstp", 120);
  }
}
