# Response parsing of the CTA bus and train clients

This project models the parsing layer of two small clients for the Chicago
Transit Authority's feeds:

- `BusTracker` in `ctaapi/busses.py`, with the endpoints `get_time`,
  `get_vehicles` and `get_predictions`;
- its earlier copy in `busses.py`, which is the same code without
  `get_predictions`;
- `Train` in `trains.py`, with the endpoint `arrivals`.

Each endpoint builds a query payload, checks the parsed response for an error
report, and then turns the matching elements into records, one per element in
document order. The model is pure, as the source is. The parsed XML tree is a
datatype (`Xml.Node`), and every endpoint is a function from the root element
to a `Result` carrying either the records or the exception the client would
raise (`Fields.Failure`).

The modules:

- `Wrappers`: `Option` and `Result`.
- `Xml`: elements, ElementTree's `find` (the first direct child with a tag) and
  `iter` (pre-order, the element itself included), and a table-driven writer of
  record elements that is used to state round trips.
- `Text`: decimal digits, Python 2's `int()` on a string, `str()` of an integer,
  `','.join` and `str.split(',')`.
- `Strptime`: `datetime.strptime(ts, '%Y%m%d %H:%M:%S')` as CPython 2.7 carries
  it out, plus the feed's zero-padded `YYYYMMDD HH:MM:SS` timestamp layout,
  which states the round trips.
  - The format becomes a regular expression whose alternatives are tried in
    order, with backtracking.
  - A match that stops short of the end is refused.
  - The groups must make a real date (year 1..9999, no 31 November, no leap
    seconds).
  - `StrptimeLemmas` holds the proofs about this parser.
- `Fields`: the helpers `parseBool`, `parseInt`, `parseTime` and `parseFloat`,
  the failure taxonomy, query payloads, and the list comprehension.
- `Bus`, `BusAsWritten` and `BusProperties`: the bus client, its call sites as
  written, and the properties of the bus client.
- `Train` and `TrainProperties`: the rail client and its properties.
- `Encoding`: how the feeds write each field, the inverse of each helper.

The bus record builders do not call their helpers the way the helpers expect
(see "## Findings"). `Bus.Reading` selects one of two behaviours:

- `Corrected` reads the child's text, as `trains.py:53-58` does.
- `AsWritten` hands the element itself to the helper, as the code does.

`Bus.BuildVehicle` and `Bus.BuildPrediction` are the corrected builders. The
`BusAsWritten` members reproduce the code as written and prove what it does.

The model follows the code in three places where a reader might expect
otherwise:

- `parseTime` accepts what CPython's `strptime` accepts. That includes one-digit
  fields and runs of whitespace, not only the literal `YYYYMMDD HH:MM:SS` shape
  (`StrptimeLemmas.ParseShortFields`).
- Every `eta` field read by `trains.py` is `find(tag).text`. A missing `lat`,
  `lon` or `heading` is an AttributeError, not a null value.
- The rail ids and names are kept as text, with no integer conversion.

## Model

| member | source | states |
|---|---|---|
| Fields.ParseBool | ctaapi/busses.py:18-22 | True exactly for "1", False exactly for "0", None for every other value, None included; a Some result is the feed's encoding of that value; the same code stands at busses.py:18-22 and trains.py:17-21 |
| Fields.ParseFormatBool | ctaapi/busses.py:18-22 | decoding the feed's "1"/"0" encoding of a flag gives the flag back |
| Encoding.ParseBoolText | trains.py:55-58 | an optional flag written as "1", "0" or nothing reads back as the same tri-state value |
| Fields.ParseBoolArgument | ctaapi/busses.py:69 | an element argument equals neither '1' nor '0', so the result is None; a text argument is decoded by parseBool |
| Fields.ParseTimeText | ctaapi/busses.py:15-16 | None text is a TypeError; otherwise success exactly when strptime accepts the text, with a valid datetime |
| Fields.ParseTimeArgument | ctaapi/busses.py:15-16 | an element argument is refused with a TypeError, as None is; text goes to strptime |
| Fields.ParseInt | ctaapi/busses.py:27-28 | an absent node is None; a node without text is a TypeError; otherwise the value int() gives for the text, or a ValueError; the same code stands at busses.py:27-28 |
| Fields.ParseIntOfFormat | ctaapi/busses.py:27-28 | a node holding the decimal text of i reads back as i |
| Encoding.ParseIntText | ctaapi/busses.py:64-66 | an optional integer field written in decimal, or left out, reads back as the same value; an absent node is None, not an error |
| Fields.ParseFloatNode | ctaapi/busses.py:24-25 | an absent node is None; a node without text is a TypeError; otherwise the node's text, kept as a literal |
| Encoding.ParseFloatLiteral | ctaapi/busses.py:24-25 | an optional float field written as its literal, or left out, reads back as the same value |
| Fields.ParseFloatText | trains.py:23-24 | None stays None; text is kept as the literal |
| Encoding.ParseFloatTextLiteral | trains.py:23-24 | the rail float reading inverts the writer |
| Fields.ChildText | ctaapi/busses.py:60 | `find(tag).text` fails with an AttributeError exactly when the child is missing, and otherwise is that child's text |
| Fields.Query | ctaapi/busses.py:34 | the transport sends exactly the parameters whose value is not None, with their values |
| Fields.FilterValue | ctaapi/busses.py:47 | the filter is None exactly when the id list is absent or empty |
| Fields.FilterValueSplits | ctaapi/busses.py:47-48 | splitting the comma-joined filter at commas gives the ids back, when no id contains a comma |
| Text.Join | ctaapi/busses.py:47 | `','.join(ids)`: its meaning is stated by SplitJoin |
| Text.SplitJoin | ctaapi/busses.py:47 | split at a separator inverts join with it, for a non-empty list of pieces without that separator |
| Text.ParseDecimal | ctaapi/busses.py:28 | `int()` on text: its meaning is stated by ParseFormatInt, ParseDecimalPadded and ParseDecimalTrimmed |
| Text.ParseDecimalTrimmed | ctaapi/busses.py:28 | int() depends only on the text with its surrounding whitespace removed |
| Text.ParseFormatInt | ctaapi/busses.py:28 | int(str(i)) == i for every integer, negative ones included |
| Text.ParseDecimalPadded | ctaapi/busses.py:28 | int() reads the decimal text of i back as i whatever whitespace surrounds it |
| Text.NatDigitsValue | ctaapi/busses.py:28 | the digits str() writes for a natural number denote that number |
| Fields.BuildAll | ctaapi/busses.py:72 | the comprehension succeeds exactly when every element's record builds; then it holds one record per element, in order; otherwise it fails with the failure of the first element that does not build |
| Strptime.ParseTime | ctaapi/busses.py:15-16 | a parsed time is a valid datetime; the text is at least 12 characters and starts with four digits giving the year; the same code stands at busses.py:15-16 and trains.py:14-15 |
| Strptime.Match | ctaapi/busses.py:16 | a match gives one value per directive and consumes at least one character per directive, never more than the input |
| Strptime.FirstMatch | ctaapi/busses.py:16 | a match has one value per directive, consumes between one character per directive and the whole input, and its first value is one of the candidates' |
| StrptimeLemmas.FirstMatchNone | ctaapi/busses.py:16 | the candidates of a directive give no match exactly when none of them is followed by a match of the remaining directives |
| StrptimeLemmas.FirstMatchWins | ctaapi/busses.py:16 | when candidate i is followed by a match of the remaining directives and no earlier candidate is, the match is candidate i's value and width followed by that continuation: regex alternation tries alternatives in order, with backtracking |
| StrptimeLemmas.ContinuesAt | ctaapi/busses.py:16 | entry i of the per-candidate record tells whether the remaining directives match after candidate i |
| Strptime.Candidates | ctaapi/busses.py:16 | every alternative of a directive takes between one character and the whole input |
| Strptime.FromMatch | ctaapi/busses.py:16 | a result built from a match is a valid datetime whose year is the first group |
| Strptime.FormatTime | ctaapi/busses.py:16 | the feed's zero-padded layout of a valid datetime is 17 characters, the shape the format describes |
| StrptimeLemmas.ParseFormat | ctaapi/busses.py:15-16 | parsing the zero-padded layout of any valid datetime gives that datetime back; the same code stands at busses.py:15-16 and trains.py:14-15 |
| StrptimeLemmas.ParseLayout | ctaapi/busses.py:15-16 | zero-padded fields laid out in the format parse to exactly those fields when they make a real date and time, and otherwise fail with ValueError |
| StrptimeLemmas.MatchLayout | ctaapi/busses.py:16 | the regex matches zero-padded fields at the front of any input, with those fields as its groups |
| StrptimeLemmas.ParseTrailing | ctaapi/busses.py:15-16 | anything after a complete timestamp is refused as unconverted data |
| StrptimeLemmas.ParseMalformed | ctaapi/busses.py:15-16 | text shorter than four characters, or whose first four characters are not all digits, is refused |
| StrptimeLemmas.ParseBad | ctaapi/busses.py:15-16 | "bad" does not match the format |
| StrptimeLemmas.ParseExample | ctaapi/busses.py:15-16 | "20130615 08:30:00" is 15 June 2013, 08:30:00 |
| StrptimeLemmas.ParseImpossibleDay | ctaapi/busses.py:15-16 | 31 November matches the regex and is refused by datetime |
| StrptimeLemmas.ParseLeapSecond | ctaapi/busses.py:15-16 | second 60 matches the regex and is refused by datetime |
| StrptimeLemmas.ParseShortFields | ctaapi/busses.py:15-16 | one-digit fields are accepted: "2013615 8:30:0" is 15 June 2013, 08:30:00 |
| StrptimeLemmas.ParseAmbiguousDate | ctaapi/busses.py:15-16 | "2013112" is 2 November, the regex's first choice, never 12 January |
| Xml.Find | ctaapi/busses.py:39 | ElementTree's `find(tag)` on an element: its meaning is stated by FindInFirst |
| Xml.FindInFirst | ctaapi/busses.py:39 | `find` returns nothing exactly when no child carries the tag, and otherwise the first child that does |
| Xml.FindInAppend | ctaapi/busses.py:39 | `find` over two runs of children looks in the first run first |
| Xml.Iter | ctaapi/busses.py:72 | ElementTree's `iter(tag)`: every element it yields carries the tag; that it is the filtered pre-order walk is IterIsFilteredPreorder |
| Xml.IterIsFilteredPreorder | ctaapi/busses.py:72 | `iter(tag)` is the pre-order walk of the subtree, the root included, restricted to that tag |
| Xml.IterAllRecords | ctaapi/busses.py:72 | iterating over a run of flat records with their own tag gives exactly those records, in order |
| Bus.TimePayload | ctaapi/busses.py:31-33 | `get_time` sends only the key; the same code stands at busses.py:31-33 |
| Bus.VehiclesPayload | ctaapi/busses.py:45-49 | key always sent; vid and rt sent exactly when their id list is non-empty, comma-joined; the same code stands at busses.py:45-49 |
| BusProperties.VehiclesPayloadExample | ctaapi/busses.py:45-49 | an empty vid list is not sent, and routes 22 and 36 go out as rt=22,36 |
| Bus.PredictionsPayload | ctaapi/busses.py:75-81 | key always sent; stpid, rt and vid sent exactly when non-empty, comma-joined; top passed through when given |
| Bus.ErrorReport | ctaapi/busses.py:40 | the exception carries the text of the error's `msg` child; without one it is an AttributeError |
| Bus.CheckError | ctaapi/busses.py:55-56 | the check passes exactly when there is no `error` child, and otherwise fails with that child's report |
| Bus.GetTime | ctaapi/busses.py:39-42 | an `error` child wins; otherwise a missing `tm` is an AttributeError, and else the result is parseTime of its text; the same code stands at busses.py:39-42 |
| BusProperties.GetTimeOfResponse | ctaapi/busses.py:39-42 | `get_time` returns the time the response states |
| BusProperties.ErrorWins | ctaapi/busses.py:87-88 | an error report placed first fails all three endpoints with the feed's message, whatever else the response holds |
| BusProperties.SystemOffline | ctaapi/busses.py:39-40 | `gettime` answering "System offline" raises that message |
| Bus.TimeField | ctaapi/busses.py:61 | corrected: parseTime of the child's text, an AttributeError when the child is missing; as written: always a TypeError |
| Bus.BoolField | ctaapi/busses.py:69 | corrected: parseBool of the child's text, None when the child is missing; as written: always None |
| Bus.DistanceField | ctaapi/busses.py:97 | corrected: parseInt of `dstp`; as written: an AttributeError for the missing method |
| Bus.BuildVehicleBy | ctaapi/busses.py:58-70 | a missing `vid` is an AttributeError; read as written, a record with a `vid` always ends in a TypeError |
| Bus.BuildVehicle | ctaapi/busses.py:58-70 | a built record copies `vid`, `rt` and `des` verbatim, holds parseTime of `tmstamp`, parseFloat of `lat` and `lon`, parseInt of `hdg`, `pid` and `pdist`, and parseBool of `dly`; a missing `vid` is an AttributeError; the same code stands at busses.py:58-70 |
| Bus.BuildVehicleSucceeds | ctaapi/busses.py:58-70 | a vehicle builds exactly when `vid`, `rt` and `des` are present, the timestamp parses, and `lat`, `lon`, `hdg`, `pid` and `pdist` each are absent (None) or convert |
| BusProperties.BuildVehicleOfElement | ctaapi/busses.py:58-70 | every vehicle record with a valid timestamp, written out as the feed writes it (optional fields left out when None), is built back unchanged |
| Bus.GetVehicles | ctaapi/busses.py:55-72 | an `error` child wins; otherwise one record per `vehicle` element, in document order, or the failure of the first element that does not build; the same code stands at busses.py:55-72 |
| BusProperties.GetVehiclesOfResponse | ctaapi/busses.py:72 | a response listing vehicle records yields exactly those records, in order |
| Bus.BuildPredictionBy | ctaapi/busses.py:90-103 | read as written, every prediction ends in the TypeError of line 92 |
| Bus.BuildPrediction | ctaapi/busses.py:90-103 | a built record copies `typ`, `stpnm`, `vid`, `rt`, `rtdir` and `des` verbatim, holds parseTime of `tmstamp` and `prdtm`, parseInt of `stpid` and `dstp`, and parseBool of `dly`; a missing `tmstamp` is an AttributeError |
| Bus.BuildPredictionSucceeds | ctaapi/busses.py:90-103 | a prediction builds exactly when both times parse, the six text fields are present, and `stpid` and `dstp` each are absent (None) or convert |
| BusProperties.BuildPredictionOfElement | ctaapi/busses.py:90-103 | every prediction record with valid times, written out as the feed writes it, is built back unchanged |
| Bus.GetPredictions | ctaapi/busses.py:87-105 | an `error` child wins; otherwise one record per `prd` element, in document order, or the failure of the first element that does not build |
| BusProperties.GetPredictionsOfResponse | ctaapi/busses.py:105 | a response listing prediction records yields exactly those records, in order |
| BusAsWritten.BuildVehicleAsWritten | ctaapi/busses.py:58-70 | as written, a vehicle without `vid` is an AttributeError, and any other vehicle a TypeError |
| BusAsWritten.GetVehiclesAsWritten | ctaapi/busses.py:72 | as written, `get_vehicles` succeeds only on a response without vehicles, and then returns the empty list; otherwise it fails with the first vehicle's exception |
| BusAsWritten.BuildPredictionAsWritten | ctaapi/busses.py:90-103 | as written, every prediction is a TypeError |
| BusAsWritten.GetPredictionsAsWritten | ctaapi/busses.py:105 | as written, `get_predictions` succeeds only on a response without predictions; otherwise it is a TypeError |
| BusAsWritten.OneVehicle | ctaapi/busses.py:61 | one well-formed vehicle: a TypeError as written, and the record itself when corrected |
| BusAsWritten.OnePrediction | ctaapi/busses.py:92 | one well-formed prediction: a TypeError as written, and the record itself when corrected |
| BusAsWritten.DelayedFlag | ctaapi/busses.py:69 | a `dly` child reading "1" is None as written, and True when corrected |
| BusAsWritten.DistanceCall | ctaapi/busses.py:97 | a well-formed `dstp` child is an AttributeError as written, and its value when corrected |
| Train.ArrivalsPayload | trains.py:27-33 | mapid, stpid, max and rt passed through unchanged and sent exactly when given; key always sent |
| Train.CheckError | trains.py:40-41 | the check passes exactly when the `errCd` text is "0"; otherwise it fails with the `errNm` text; a missing child is an AttributeError |
| Train.BuildEta | trains.py:43-62 | a built record copies the eight id and name fields verbatim, holds parseTime of `prdt` and `arrT`, parseBool of the four flags and the three float texts; a missing `staId` is an AttributeError |
| Train.BuildEtaSucceeds | trains.py:43-62 | a record builds exactly when every child is present and both times parse |
| TrainProperties.BuildEtaOfElement | trains.py:43-62 | every arrival with valid times, written out as the feed writes it, is built back unchanged |
| Train.Arrivals | trains.py:40-64 | the error check wins; otherwise one record per `eta` element, in document order, or the failure of the first element that does not build |
| TrainProperties.ArrivalsOfResponse | trains.py:64 | a successful answer listing arrivals yields exactly those arrivals, in order |
| TrainProperties.ArrivalsResponseShape | trains.py:40 | the success header passes the error check, and the answer iterates to its arrival elements |
| TrainProperties.ErrorCodeWins | trains.py:40-41 | a non-"0" error code fails with the error name before any arrival is read |
| TrainProperties.InvalidKey | trains.py:40-41 | the answer to a bad key raises "Invalid API key" |
| TrainProperties.MissingErrorCode | trains.py:40 | an answer without `errCd` is an AttributeError, however many arrivals it lists |

## Left out

- HTTP transport (`requests.get`), the `utf-8-sig` decoding and BOM stripping, and `print resp.url`: I/O through a foreign library. Each endpoint starts from the already-parsed root element, and the payload is what would be handed to the transport.
- `ET.fromstring`: XML parsing is a foreign library. Attributes and tail text are not modelled because the clients never read them.
- Fields.ParseFloatNode: keeps the text instead of calling `float()`, so it does not refuse text that `float()` rejects with a ValueError. Floating point is not modelled.
- Fields.ParseFloatText: likewise keeps the text and does not refuse text that `float()` rejects.
- Text.ParseDecimal: accepts ASCII digits only, treats only ASCII whitespace as space, and allows no whitespace between the sign and the digits. Python 2's `int()` on unicode text also accepts non-ASCII digits and strips non-ASCII whitespace such as U+00A0.
- Python 2's split between `int` and `long` is not modelled; integers are unbounded.
- The bus filters are modelled as lists of strings; a caller passing a bare string (which `','.join` would split into characters) is not modelled. The rail arguments are modelled as already-converted strings, the way `requests` sends them.
- The `__main__` demo blocks (`ctaapi/busses.py:107-109`, `busses.py:74-76`, `trains.py:66-68`): scripts with console output.
- setup.py is packaging and is not part of this model.
- Bus.BoolField: the corrected reading reads `dly`'s text and gives None when the child is missing. The code as written never raises at `dly`, so this is the reading that keeps that.
- The endpoints `ttfollow` and `ttpositions` and their records are not part of the source files modelled here.

## Findings

| source | as written | input that shows it | evidently intended | confidence | as-written member | corrected member |
|---|---|---|---|---|---|---|
| ctaapi/busses.py:61 | `self.parseTime(v.find('tmstamp'))` hands the element to strptime | a `vehicle` element with `vid` and `tmstamp` "20130615 08:30:00" | `parseTime(v.find('tmstamp').text)` | not executed | BusAsWritten.OneVehicle | BusProperties.GetVehiclesOfResponse |
| busses.py:61 | the same call in the earlier copy | the same vehicle element | `parseTime(v.find('tmstamp').text)` | not executed | BusAsWritten.GetVehiclesAsWritten | Bus.GetVehicles |
| ctaapi/busses.py:92 | `self.parseTime(v.find('tmstamp'))` (and `prdtm` at line 101) hands the element to strptime | a `prd` element with a well-formed `tmstamp` | `parseTime(v.find('tmstamp').text)` and likewise for `prdtm` | not executed | BusAsWritten.OnePrediction | BusProperties.GetPredictionsOfResponse |
| ctaapi/busses.py:69 | `self.parseBool(v.find('dly'))` compares the element with '1' and '0' (also line 102 and busses.py:69) | a `dly` child reading "1" | parseBool of `dly`'s text, giving True, and None when `dly` is missing | not executed | BusAsWritten.DelayedFlag | Bus.BoolField |
| ctaapi/busses.py:97 | `self.ParseInt(...)` names a method the class does not define | a `prd` element whose `dstp` reads "120" | `self.parseInt(v.find('dstp'))`, giving 120 | not executed | BusAsWritten.DistanceCall | Bus.DistanceField |
