/**
 * Track reconstruction: from an activity summary and its telemetry streams
 * to a GPX 1.1 document with one track point per position sample.
 *
 * `Reconstruct` says what the document is (as structured data), `Render`
 * says how it is written out, and the method `CreateGpx` builds the text the
 * way the backup does, point by point, and is proved to produce
 * `Render(Reconstruct(...))`.
 */
module Gpx {
  import opened Opt
  import opened Decimal
  import opened UtcTime
  import opened Records

  /**
   * The exceptions `create_gpx` can raise once both position and time streams
   * exist; each stops the whole backup pass.
   */
  datatype GpxError =
    | BadStartDate              // `start_date` missing (KeyError) or not in the strict format (ValueError)
    | MalformedLatLng(i: nat)   // position sample `i` is not a [lat, lon] pair (TypeError on unpacking)
    | StreamTooShort(i: nat)    // an elevation, heart-rate or time stream has no sample `i` (IndexError)
    | BadTimeOffset(i: nat)     // time sample `i` is not an integer number of seconds
    | TimeOutOfRange(i: nat)    // the absolute time of point `i` falls outside years 1..9999

  /** The three outcomes of `create_gpx`: `None`, an exception, or a value. */
  datatype Outcome<+T> = NotRepresentable | Failed(error: GpxError) | Produced(value: T)

  datatype TrackPoint = TrackPoint(lat: string, lon: string, ele: Option<string>, time: string, hr: Option<string>)

  /**
   * A track document: whether the header declares the Garmin TrackPointExtension
   * namespace, the metadata time, the track name and the points in order.
   */
  datatype GpxDocument = GpxDocument(declaresHr: bool, time: string, name: string, points: seq<TrackPoint>)

  /** An optional stream: a missing one reads as `len(latlng)` nulls. */
  function Channel(m: map<string, seq<Sample>>, key: string, n: nat): (c: seq<Sample>)
    ensures key !in m ==> |c| == n && forall i :: 0 <= i < n ==> c[i] == Null
  {
    if key in m then m[key] else seq(n, _ => Null)
  }

  /** The position and time streams both exist. */
  predicate HasTrack(m: map<string, seq<Sample>>) {
    "latlng" in m && "time" in m
  }

  function Rendered(v: Sample): Option<string> {
    if v == Null then None else Some(Show(v))
  }

  /** Track point `i`, or the exception raised while building it (checked in the order the code touches the streams). */
  function PointAt(m: map<string, seq<Sample>>, start: DateTime, i: nat): Result<TrackPoint, GpxError>
    requires HasTrack(m) && ValidDate(start) && i < |m["latlng"]|
  {
    var latlngs, times := m["latlng"], m["time"];
    var elevations := Channel(m, "altitude", |latlngs|);
    var heartrates := Channel(m, "heartrate", |latlngs|);
    if !latlngs[i].LatLng? then Err(MalformedLatLng(i))
    else if i >= |elevations| || i >= |heartrates| || i >= |times| then Err(StreamTooShort(i))
    else if !times[i].Int? then Err(BadTimeOffset(i))
    else
      var at := Shift(start, times[i].n);
      if !Representable(at) then Err(TimeOutOfRange(i))
      else Ok(TrackPoint(latlngs[i].lat, latlngs[i].lon, Rendered(elevations[i]), Format(at), Rendered(heartrates[i])))
  }

  /** The attempt at every track point, one per position sample. */
  function PointResults(m: map<string, seq<Sample>>, start: DateTime): (rs: seq<Result<TrackPoint, GpxError>>)
    requires HasTrack(m) && ValidDate(start)
    ensures |rs| == |m["latlng"]|
    ensures forall i :: 0 <= i < |rs| ==> rs[i] == PointAt(m, start, i)
  {
    seq(|m["latlng"]|, i requires 0 <= i < |m["latlng"]| => PointAt(m, start, i))
  }

  function TrackName(a: Activity): string {
    if a.name.Some? then a.name.value else "Activity"
  }

  /** What `create_gpx` describes, as structured data. */
  function Reconstruct(a: Activity, streams: seq<Stream>): Outcome<GpxDocument> {
    var m := StreamMap(streams);
    if !HasTrack(m) then NotRepresentable
    else if a.startDate.None? || Parse(a.startDate.value).None? then Failed(BadStartDate)
    else match Collect(PointResults(m, Parse(a.startDate.value).value))
      case Err(e) => Failed(e)
      case Ok(ps) => Produced(GpxDocument("heartrate" in m, a.startDate.value, TrackName(a), ps))
  }

  // ---------------------------------------------------------------------------
  // Serialisation

  const HeaderStart := "<?xml version=\"1.0\" encoding=\"UTF-8\"?>\n<gpx creator=\"StravaBackup\" version=\"1.1\" xmlns=\"http://www.topografix.com/GPX/1/1\" "
  const HeaderEnd := "xmlns:xsi=\"http://www.w3.org/2001/XMLSchema-instance\" xsi:schemaLocation=\"http://www.topografix.com/GPX/1/1 http://www.topografix.com/GPX/1/1/gpx.xsd\">"
  const TpxNamespace := "xmlns:gpxtpx=\"http://www.garmin.com/xmlschemas/TrackPointExtension/v1\" "
  const Footer := "\n  </trkseg>\n </trk>\n</gpx>"

  /**
   * The `<gpx>` start tag. The backup inserts the TrackPointExtension namespace
   * by replacing the one occurrence of `xmlns:xsi=` in the fixed header with
   * the namespace attribute followed by `xmlns:xsi=`.
   */
  function Header(declaresHr: bool): string {
    HeaderStart + (if declaresHr then TpxNamespace else "") + HeaderEnd
  }

  function Metadata(time: string, name: string): string {
    "\n <metadata>\n  <time>" + time + "</time>\n </metadata>\n <trk>\n  <name>" + name + "</name>\n  <trkseg>"
  }

  function HrExtension(hr: string): string {
    "<extensions>\n    <gpxtpx:TrackPointExtension xmlns:gpxtpx=\"http://www.garmin.com/xmlschemas/TrackPointExtension/v1\">\n     <gpxtpx:hr>"
      + hr + "</gpxtpx:hr>\n    </gpxtpx:TrackPointExtension>\n   </extensions>"
  }

  function TrkptOpen(lat: string, lon: string): string {
    "\n   <trkpt lat=\"" + lat + "\" lon=\"" + lon + "\">"
  }

  function EleElement(ele: string): string {
    "<ele>" + ele + "</ele>"
  }

  function TimeElement(time: string): string {
    "<time>" + time + "</time>"
  }

  const TrkptClose := "</trkpt>"

  /** A `<trkpt>` element: position, then the elevation if any, the time, the heart-rate extension if any. */
  function RenderPoint(p: TrackPoint): string {
    var tag := TrkptOpen(p.lat, p.lon);
    var withEle := if p.ele.Some? then tag + EleElement(p.ele.value) else tag;
    var withTime := withEle + TimeElement(p.time);
    var withHr := if p.hr.Some? then withTime + HrExtension(p.hr.value) else withTime;
    withHr + TrkptClose
  }

  function RenderPoints(ps: seq<TrackPoint>): string {
    if ps == [] then "" else RenderPoints(ps[..|ps| - 1]) + RenderPoint(ps[|ps| - 1])
  }

  function Render(doc: GpxDocument): string {
    Header(doc.declaresHr) + Metadata(doc.time, doc.name) + RenderPoints(doc.points) + Footer
  }

  function RenderOutcome(o: Outcome<GpxDocument>): Outcome<string> {
    match o
    case NotRepresentable => NotRepresentable
    case Failed(e) => Failed(e)
    case Produced(doc) => Produced(Render(doc))
  }

  // ---------------------------------------------------------------------------
  // Properties of the reconstruction

  /** No document exactly when the streams lack the `latlng` or the `time` type. */
  lemma NotRepresentableIff(a: Activity, streams: seq<Stream>)
    ensures Reconstruct(a, streams).NotRepresentable? <==> "latlng" !in Kinds(streams) || "time" !in Kinds(streams)
  {
    StreamMapKeys(streams);
  }

  /**
   * With both streams present, reconstruction fails exactly when the start
   * date does not parse or some point fails; in the latter case the exception
   * is that of the first failing point, every earlier point being buildable.
   */
  lemma FailedIff(a: Activity, streams: seq<Stream>)
    requires HasTrack(StreamMap(streams))
    ensures Reconstruct(a, streams).Failed? <==>
      (a.startDate.None? || Parse(a.startDate.value).None?
       || exists i :: 0 <= i < |StreamMap(streams)["latlng"]|
            && PointAt(StreamMap(streams), Parse(a.startDate.value).value, i).Err?)
    ensures Reconstruct(a, streams).Failed? && a.startDate.Some? && Parse(a.startDate.value).Some? ==>
      exists i :: 0 <= i < |StreamMap(streams)["latlng"]|
        && PointAt(StreamMap(streams), Parse(a.startDate.value).value, i) == Err(Reconstruct(a, streams).error)
        && forall j :: 0 <= j < i ==> PointAt(StreamMap(streams), Parse(a.startDate.value).value, j).Ok?
  {
    var m := StreamMap(streams);
    if a.startDate.Some? && Parse(a.startDate.value).Some? {
      var rs := PointResults(m, Parse(a.startDate.value).value);
      CollectErr(rs);
    }
  }

  /**
   * The document has one point per position sample, in index order. Point `i`
   * carries position `i`; its time is the start instant plus `time[i]` seconds;
   * it has an elevation exactly when an `altitude` stream exists and sample `i`
   * of it is not null, and likewise a heart rate for the `heartrate` stream.
   */
  lemma DocumentPoints(a: Activity, streams: seq<Stream>)
    requires Reconstruct(a, streams).Produced?
    ensures var m, doc := StreamMap(streams), Reconstruct(a, streams).value;
      && HasTrack(m) && a.startDate.Some? && Parse(a.startDate.value).Some?
      && |doc.points| == |m["latlng"]|
      && forall i :: 0 <= i < |doc.points| ==>
        var p, start := doc.points[i], Parse(a.startDate.value).value;
        && m["latlng"][i] == LatLng(p.lat, p.lon)
        && i < |m["time"]| && m["time"][i].Int?
        && Representable(Shift(start, m["time"][i].n))
        && p.time == Format(Shift(start, m["time"][i].n))
        && (p.ele.Some? <==> "altitude" in m && m["altitude"][i] != Null)
        && (p.ele.Some? ==> p.ele.value == Show(m["altitude"][i]))
        && (p.hr.Some? <==> "heartrate" in m && m["heartrate"][i] != Null)
        && (p.hr.Some? ==> p.hr.value == Show(m["heartrate"][i]))
  {
    var m := StreamMap(streams);
    var start := Parse(a.startDate.value).value;
    CollectOk(PointResults(m, start));
  }

  /**
   * Every point time reads back, through the start-date parser, as exactly the
   * start instant plus the point's elapsed seconds.
   */
  lemma PointTimesReadBack(a: Activity, streams: seq<Stream>, i: nat)
    requires Reconstruct(a, streams).Produced? && i < |Reconstruct(a, streams).value.points|
    ensures var m := StreamMap(streams);
      && a.startDate.Some? && Parse(a.startDate.value).Some?
      && i < |m["time"]| && m["time"][i].Int?
      && Parse(Reconstruct(a, streams).value.points[i].time).Some?
      && ToEpoch(Parse(Reconstruct(a, streams).value.points[i].time).value)
         == ToEpoch(Parse(a.startDate.value).value) + m["time"][i].n
  {
    DocumentPoints(a, streams);
    var m: map<string, seq<Sample>> := StreamMap(streams);
    var at := Shift(Parse(a.startDate.value).value, m["time"][i].n);
    ParseFormat(at);
  }

  /**
   * The header declares the extension namespace exactly when a `heartrate`
   * stream exists, whatever its samples; the metadata time is the raw start
   * date, and the track is named after the activity or "Activity".
   */
  lemma DocumentHeader(a: Activity, streams: seq<Stream>)
    requires Reconstruct(a, streams).Produced?
    ensures var doc := Reconstruct(a, streams).value;
      && (doc.declaresHr <==> "heartrate" in Kinds(streams))
      && a.startDate == Some(doc.time)
      && doc.name == (if a.name.Some? then a.name.value else "Activity")
  {
    StreamMapKeys(streams);
  }

  // ---------------------------------------------------------------------------
  // The imperative builder

  lemma RenderPointsSnoc(ps: seq<TrackPoint>, p: TrackPoint)
    ensures RenderPoints(ps + [p]) == RenderPoints(ps) + RenderPoint(p)
  {
    assert (ps + [p])[..|ps|] == ps;
  }

  /**
   * The body of the loop of `create_gpx` for index `i`: unpack the position,
   * read the elevation, heart rate and time offset, and compute the point time.
   */
  method BuildPoint(m: map<string, seq<Sample>>, start: DateTime, latlngs: seq<Sample>, elevations: seq<Sample>,
                    heartrates: seq<Sample>, times: seq<Sample>, i: nat)
    returns (point: Result<TrackPoint, GpxError>)
    requires HasTrack(m) && ValidDate(start) && i < |latlngs|
    requires latlngs == m["latlng"] && times == m["time"]
    requires elevations == Channel(m, "altitude", |latlngs|) && heartrates == Channel(m, "heartrate", |latlngs|)
    ensures point == PointAt(m, start, i)
  {
    if !latlngs[i].LatLng? {
      return Err(MalformedLatLng(i));
    }
    var lat, lon := latlngs[i].lat, latlngs[i].lon;
    if i >= |elevations| || i >= |heartrates| || i >= |times| {
      return Err(StreamTooShort(i));
    }
    var ele, hr, offset := elevations[i], heartrates[i], times[i];
    if !offset.Int? {
      return Err(BadTimeOffset(i));
    }
    var at := Shift(start, offset.n);
    if !Representable(at) {
      return Err(TimeOutOfRange(i));
    }
    var pointTime := Format(at);
    return Ok(TrackPoint(lat, lon, Rendered(ele), pointTime, Rendered(hr)));
  }

  /**
   * The loop of `create_gpx`: the `<trkpt>` elements of all points in order,
   * or the exception raised by the first point that fails.
   */
  method TrackPoints(m: map<string, seq<Sample>>, start: DateTime, latlngs: seq<Sample>, elevations: seq<Sample>,
                     heartrates: seq<Sample>, times: seq<Sample>)
    returns (trkpts: Result<string, GpxError>)
    requires HasTrack(m) && ValidDate(start)
    requires latlngs == m["latlng"] && times == m["time"]
    requires elevations == Channel(m, "altitude", |latlngs|) && heartrates == Channel(m, "heartrate", |latlngs|)
    ensures trkpts == match Collect(PointResults(m, start))
                      case Err(e) => Err(e)
                      case Ok(ps) => Ok(RenderPoints(ps))
  {
    ghost var rs := PointResults(m, start);
    var text := "";
    ghost var points: seq<TrackPoint> := [];
    for i := 0 to |latlngs|
      invariant Collect(rs[..i]) == Ok(points)
      invariant text == RenderPoints(points)
    {
      var point := BuildPoint(m, start, latlngs, elevations, heartrates, times, i);
      CollectSnoc(rs, i);
      if point.Err? {
        CollectFailsFrom(rs, i + 1);
        return Err(point.error);
      }
      var p := point.value;
      RenderPointsSnoc(points, p);
      text := text + RenderPoint(p);
      points := points + [p];
    }
    assert rs[..|latlngs|] == rs;
    return Ok(text);
  }

  /** `create_gpx`: builds the document text one track point at a time. */
  method CreateGpx(activity: Activity, streams: seq<Stream>) returns (r: Outcome<string>)
    ensures r == RenderOutcome(Reconstruct(activity, streams))
  {
    var name := if activity.name.Some? then activity.name.value else "Activity";
    var timeStr := if activity.startDate.Some? then activity.startDate.value else "";
    var metadata := Metadata(timeStr, name);

    var m := StreamMap(streams);
    if "latlng" !in m || "time" !in m {
      return NotRepresentable;
    }
    var latlngs, times := m["latlng"], m["time"];
    if activity.startDate.None? {
      return Failed(BadStartDate);
    }
    var parsed := Parse(activity.startDate.value);
    if parsed.None? {
      return Failed(BadStartDate);
    }
    var start := parsed.value;
    var elevations := if "altitude" in m then m["altitude"] else seq(|latlngs|, _ => Null);
    var heartrates := if "heartrate" in m then m["heartrate"] else seq(|latlngs|, _ => Null);
    assert elevations == Channel(m, "altitude", |latlngs|) && heartrates == Channel(m, "heartrate", |latlngs|);

    var trkpts := TrackPoints(m, start, latlngs, elevations, heartrates, times);
    if trkpts.Err? {
      return Failed(trkpts.error);
    }
    var header := Header(false);
    if "heartrate" in m {
      header := Header(true);
    }
    return Produced(header + metadata + trkpts.value + Footer);
  }
}
