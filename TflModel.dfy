/**
 * The shapes of the transport-for-London data: the raw stop-point and
 * arrivals documents as the upstream API delivers them (only the fields the
 * dashboard reads), and the stable domain shapes `Line`, `StopPoint` and
 * `Arrival` that the extraction engine produces.
 *
 * A field the code tests for presence before using it is an `Option`; a field
 * it uses unguarded is a plain value, so its presence is assumed by the type.
 */
module TflModel {
  import opened Options

  /** A line of the network: a stable slug such as "central" and its display name. */
  datatype Line = Line(id: string, name: string)

  /** A station as the dashboard shows it. */
  datatype StopPoint = StopPoint(id: string, name: string, lines: seq<Line>, platformCount: nat)

  /** One predicted train arrival; `timeToStation` is in seconds at the moment of the fetch. */
  datatype Arrival = Arrival(id: string, line: Line, direction: string, towards: string, timeToStation: int)

  /** An entry of a stop's `lines` list. */
  datatype RawLine = RawLine(id: string, name: string)

  /** An entry of a stop's `lineModeGroups`: a transport mode and the ids of its lines (when given). */
  datatype RawModeGroup = RawModeGroup(modeName: string, lineIdentifier: Option<seq<string>>)

  /** A child stop point (platform, entrance, ...); only its type is read. */
  datatype RawChild = RawChild(stopType: string)

  /** An entry of the document's `stopPoints`. */
  datatype RawStop = RawStop(
    id: string,
    commonName: string,
    stopType: string,
    lineModeGroups: Option<seq<RawModeGroup>>,
    lines: Option<seq<RawLine>>,
    children: Option<seq<RawChild>>)

  /** The stop-point document for mode "tube". */
  datatype RawDoc = RawDoc(stopPoints: Option<seq<RawStop>>)

  /** One element of the arrivals document. */
  datatype RawArrival = RawArrival(
    id: string,
    lineId: string,
    lineName: string,
    direction: string,
    towards: string,
    timeToStation: int,
    platformName: string)

  /** A decoded JSON body, as far as `Array.isArray` can tell. */
  datatype ArrivalsBody = JsonArray(items: seq<RawArrival>) | NotAnArray

  /** The status and body of the arrivals request. */
  datatype ArrivalsResponse = NotOk | Ok(body: ArrivalsBody)

  /** How an exported call ends: its promise resolves with a value, or rejects with an error thrown inside. */
  datatype Call<+T> = Returned(value: T) | Threw

  /** The stop-type values the extraction engine filters on. */
  const MetroStation: string := "NaptanMetroStation"
  const MetroPlatform: string := "NaptanMetroPlatform"
  /** The mode name of the line-mode group that lists underground lines. */
  const TubeMode: string := "tube"
}
