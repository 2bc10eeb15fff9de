/**
 * The provider's records as the backup reads them: activity summaries and
 * the per-activity telemetry streams, and the pivot of a stream list into a
 * map from stream type to samples.
 */
module Records {
  import opened Opt
  import opened Decimal

  /** An activity summary: the identity key and the two optional fields the backup reads. */
  datatype Activity = Activity(id: int, name: Option<string>, startDate: Option<string>)

  /**
   * One JSON sample of a stream. Floating-point numbers are kept as the text
   * Python's `str()` gives them; a position is a [latitude, longitude] pair.
   */
  datatype Sample = Null | Int(n: int) | Real(text: string) | LatLng(lat: string, lon: string)

  /** A sample as an f-string renders it (`Null` is never rendered). */
  function Show(v: Sample): string {
    match v
    case Null => "None"
    case Int(n) => Integer(n)
    case Real(text) => text
    case LatLng(lat, lon) => "[" + lat + ", " + lon + "]"
  }

  /** One element of the streams response: `{"type": kind, "data": [...]}`. */
  datatype Stream = Stream(kind: string, data: seq<Sample>)

  /** No later stream in the list has the same type as stream `i`. */
  predicate LastOfKind(streams: seq<Stream>, i: int)
    requires 0 <= i < |streams|
  {
    forall j :: i < j < |streams| ==> streams[j].kind != streams[i].kind
  }

  /** The set of stream types present in the list. */
  function Kinds(streams: seq<Stream>): set<string> {
    set i | 0 <= i < |streams| :: streams[i].kind
  }

  /** `{s['type']: s['data'] for s in streams}`, built in list order. */
  function StreamMap(streams: seq<Stream>): map<string, seq<Sample>> {
    if streams == [] then map[]
    else StreamMap(streams[..|streams| - 1])[streams[|streams| - 1].kind := streams[|streams| - 1].data]
  }

  /** Every stream type in the list is a key, and nothing else is. */
  lemma {:induction false} StreamMapKeys(streams: seq<Stream>)
    ensures StreamMap(streams).Keys == Kinds(streams)
  {
    if streams != [] {
      var init := streams[..|streams| - 1];
      StreamMapKeys(init);
      assert Kinds(streams) == Kinds(init) + {streams[|streams| - 1].kind} by {
        assert forall i :: 0 <= i < |init| ==> init[i] == streams[i];
      }
    }
  }

  /** Later streams of the same type overwrite earlier ones: the last one's samples are kept. */
  lemma {:induction false} StreamMapLastWins(streams: seq<Stream>, i: int)
    requires 0 <= i < |streams| && LastOfKind(streams, i)
    ensures streams[i].kind in StreamMap(streams)
    ensures StreamMap(streams)[streams[i].kind] == streams[i].data
  {
    var init, last := streams[..|streams| - 1], streams[|streams| - 1];
    if i < |init| {
      assert streams[i].kind != last.kind;
      assert LastOfKind(init, i) by {
        forall j | i < j < |init| ensures init[j].kind != init[i].kind {
          assert init[j] == streams[j];
        }
      }
      StreamMapLastWins(init, i);
    }
  }
}
