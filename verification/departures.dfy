/**
 * Normalisation of raw departure records (parse_departure_data, get_stop_point).
 *
 * A raw record is the JSON object the departures endpoint returns for one
 * departure; every key it may lack is an `Option`, and `None` stands for a
 * missing key. `line`, its `designation`, `destination` and `display` are read
 * with `[]`, so a missing one raises KeyError and the record is skipped;
 * `expected` and `stop_point` are read with `.get` and fall back to a default.
 */
module Departures {
  import opened Wrappers
  import opened Config
  import opened Seqs
  import opened ExpectedTime

  datatype RawLine = RawLine(designation: Option<string>)

  datatype RawStopPoint = RawStopPoint(designation: Option<string>)

  /** One element of the `departures` array, with its keys as they arrived. */
  datatype RawDeparture = RawDeparture(
    line: Option<RawLine>,
    destination: Option<string>,
    display: Option<string>,
    expected: Option<string>,
    stopPoint: Option<RawStopPoint>)

  /** The decoded response body: an object with an optional `departures` array, or anything else. */
  datatype DeparturePayload = NotAnObject | Object(departures: Option<seq<RawDeparture>>)

  /** A normalised departure. */
  datatype Departure = Departure(
    line: string,
    destination: string,
    display: string,
    expected: Option<Instant>,
    stopPoint: string)

  const GLASBRUKSGATAN: string := "Glasbruksgatan"
  const SLUSSBROGATAN_SUFFIX: string := " (Slussbrogatan)"

  /** The raw records of a payload; a missing `departures` key reads as an empty array. */
  function RawRecords(payload: DeparturePayload): seq<RawDeparture> {
    match payload
    case NotAnObject => []
    case Object(ds) => ds.GetOr([])
  }

  /** The stop label as sent, or "" when `stop_point` or its `designation` is missing. */
  function RawLabel(raw: RawDeparture): string {
    match raw.stopPoint
    case None => ""
    case Some(sp) => sp.designation.GetOr("")
  }

  /** The line designation, when both `line` and its `designation` are present. */
  function LineOf(raw: RawDeparture): Option<string> {
    match raw.line
    case None => None
    case Some(l) => l.designation
  }

  /**
   * The stop label shown for a departure of `line`. For a Slussbrogatan line
   * the raw label is a prefix of the result and the suffix follows it; for a
   * line outside both special sets two records get the same label exactly
   * when their raw labels are equal.
   */
  function StopPoint(raw: RawDeparture, line: string): (r: string)
    ensures line in LINES_GLASBRUKSGATAN ==> r == GLASBRUKSGATAN
    ensures line in LINES_SLUSSBROGATAN ==> r == RawLabel(raw) + SLUSSBROGATAN_SUFFIX
    ensures line !in LINES_GLASBRUKSGATAN && line !in LINES_SLUSSBROGATAN ==> r == RawLabel(raw)
  {
    SpecialLinesAreMonitoredAndDisjoint();
    if line in LINES_GLASBRUKSGATAN then GLASBRUKSGATAN
    else if line in LINES_SLUSSBROGATAN then RawLabel(raw) + SLUSSBROGATAN_SUFFIX
    else RawLabel(raw)
  }

  /**
   * A record is kept when its line designation is present and allow-listed
   * and it has a destination and a display text. A missing stop point or
   * expected time does not drop it.
   */
  predicate Accepted(raw: RawDeparture) {
    && LineOf(raw).Some?
    && LineOf(raw).value in LINES
    && raw.destination.Some?
    && raw.display.Some?
  }

  /** The body of the loop in parse_departure_data for one record; `None` is a skip. */
  function NormalizeDeparture(raw: RawDeparture, fromIso: string -> Option<Instant>): (r: Option<Departure>)
    ensures r.Some? <==> Accepted(raw)
    ensures r.Some? ==> r.value.line == LineOf(raw).value && r.value.line in LINES
    ensures r.Some? ==> r.value.destination == raw.destination.value && r.value.display == raw.display.value
    ensures r.Some? ==> r.value.stopPoint == StopPoint(raw, r.value.line)
    ensures r.Some? ==> r.value.expected == ParseExpectedTime(raw.expected, fromIso)
  {
    match LineOf(raw)
    case None => None
    case Some(line) =>
      if line !in LINES then None
      else
        var stop := StopPoint(raw, line);
        var expected := ParseExpectedTime(raw.expected, fromIso);
        match (raw.destination, raw.display)
        case (Some(dest), Some(disp)) => Some(Departure(line, dest, disp, expected, stop))
        case _ => None
  }

  /** NormalizeDeparture as a value, so that every use below shares one function. */
  function Normalizer(fromIso: string -> Option<Instant>): RawDeparture -> Option<Departure> {
    raw => NormalizeDeparture(raw, fromIso)
  }

  /** parse_departure_data: the normalised records of the payload, in input order. */
  function ParseDepartures(payload: DeparturePayload, fromIso: string -> Option<Instant>): (r: seq<Departure>)
    ensures payload.NotAnObject? ==> r == []
    ensures payload.Object? && payload.departures.None? ==> r == []
    ensures |r| <= |RawRecords(payload)|
    ensures forall d :: d in r ==> d.line in LINES
  {
    var raws := RawRecords(payload);
    FilterMapKeeps(raws, Normalizer(fromIso), (d: Departure) => d.line in LINES);
    FilterMap(raws, Normalizer(fromIso))
  }

  /**
   * The output is exactly the accepted records, normalised, in input order:
   * there are increasing positions of the raw records they come from, and
   * every accepted record is among them. Any sequence with such positions is
   * the output.
   */
  lemma ParseDeparturesExact(payload: DeparturePayload, fromIso: string -> Option<Instant>)
    ensures exists idx :: IsFilterMapping(RawRecords(payload), Normalizer(fromIso), ParseDepartures(payload, fromIso), idx)
    ensures forall ds, idx :: IsFilterMapping(RawRecords(payload), Normalizer(fromIso), ds, idx)
              ==> ds == ParseDepartures(payload, fromIso)
  {
    var raws := RawRecords(payload);
    assert ParseDepartures(payload, fromIso) == FilterMap(raws, Normalizer(fromIso));
    FilterMapSelects(raws, Normalizer(fromIso));
    forall ds, idx | IsFilterMapping(raws, Normalizer(fromIso), ds, idx)
      ensures ds == ParseDepartures(payload, fromIso)
    {
      FilterMappingUnique(raws, Normalizer(fromIso), ds, idx);
    }
  }

  /** A skipped record (missing key or line not monitored) leaves the records around it untouched. */
  lemma SkippedRecordIsolated(before: seq<RawDeparture>, raw: RawDeparture, after: seq<RawDeparture>,
                              fromIso: string -> Option<Instant>)
    requires !Accepted(raw)
    ensures ParseDepartures(Object(Some(before + [raw] + after)), fromIso)
         == ParseDepartures(Object(Some(before)), fromIso) + ParseDepartures(Object(Some(after)), fromIso)
  {
    var f := Normalizer(fromIso);
    assert f(raw).None?;
    FilterMapSkipsRejected(before, raw, after, f);
    assert ParseDepartures(Object(Some(before + [raw] + after)), fromIso) == FilterMap(before + [raw] + after, f);
    assert ParseDepartures(Object(Some(before)), fromIso) == FilterMap(before, f);
    assert ParseDepartures(Object(Some(after)), fromIso) == FilterMap(after, f);
  }

  /** A record whose line is not allow-listed never reaches the output, whatever its other fields. */
  lemma UnmonitoredLineDropped(raw: RawDeparture, fromIso: string -> Option<Instant>)
    requires LineOf(raw).Some? && LineOf(raw).value !in LINES
    ensures ParseDepartures(Object(Some([raw])), fromIso) == []
  {
    assert FilterMap([raw], Normalizer(fromIso)) == FilterMap([raw][1..], Normalizer(fromIso));
  }
}
