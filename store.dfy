/**
 * The backup directory and one pass of `save_activities` over it: for each
 * listed activity, write `{id}.json` if it is missing, and when `{id}_streams.json`
 * or `{id}.gpx` is missing fetch the streams once and write whichever of the
 * two is missing. Existing files are never rewritten.
 *
 * `SaveAll` says what a pass does, as a function of the directory before it;
 * the class `ActivityStore` holds the directory and its method
 * `SaveActivities` performs the pass step by step.
 */
module Store {
  import opened Opt
  import opened Decimal
  import opened Records
  import opened Gpx

  /** What a file of the directory holds, as far as the backup reads it back. */
  datatype StoredFile =
    | SummaryFile(activity: Activity)   // `{id}.json`: the activity summary as listed
    | StreamsFile(streams: seq<Stream>) // `{id}_streams.json`: the streams response
    | TrackFile(text: string)           // `{id}.gpx`: the track document
    | OtherFile                         // anything else, including files that do not parse as JSON

  function SummaryName(id: int): string {
    Integer(id) + ".json"
  }

  function StreamsName(id: int): string {
    Integer(id) + "_streams.json"
  }

  function TrackFileName(id: int): string {
    Integer(id) + ".gpx"
  }

  /** The three kinds of name never coincide, whatever the two ids. */
  lemma NamesDistinct(x: int, y: int)
    ensures SummaryName(x) != StreamsName(y)
    ensures SummaryName(x) != TrackFileName(y)
    ensures StreamsName(x) != TrackFileName(y)
  {
    var ix, iy := Integer(x), Integer(y);
    if |SummaryName(x)| == |StreamsName(y)| {
      assert SummaryName(x)[|iy|] == ix[|iy|] && StreamsName(y)[|iy|] == '_';
    }
    if |SummaryName(x)| == |TrackFileName(y)| {
      assert SummaryName(x)[|ix|] == '.' && TrackFileName(y)[|ix|] == iy[|ix|];
    }
    if |StreamsName(x)| == |TrackFileName(y)| {
      assert StreamsName(x)[|ix|] == '_' && TrackFileName(y)[|ix|] == iy[|ix|];
    }
  }

  /** Distinct ids have distinct summary names. */
  lemma SummaryNameInjective(x: int, y: int)
    requires SummaryName(x) == SummaryName(y)
    ensures x == y
  {
    var s := SummaryName(x);
    assert Integer(x) == s[..|s| - 5] == Integer(y);
    IntegerInjective(x, y);
  }

  // ---------------------------------------------------------------------------
  // The pass as a function of the directory

  /**
   * The observable state of a pass: the directory, the number of one-second
   * pauses taken, the ids whose streams were requested (in order), and the
   * number of summaries written.
   */
  datatype Run = Run(files: map<string, StoredFile>, sleeps: nat, fetches: seq<int>, saved: nat)

  /**
   * A track builder: `create_gpx` applied to an activity and its streams. The
   * properties of a pass hold for any builder; the backup uses `TrackOf`.
   */
  type Builder = (Activity, seq<Stream>) -> Outcome<string>

  /** What `create_gpx` returns for an activity and its streams. */
  function TrackOf(a: Activity, streams: seq<Stream>): Outcome<string> {
    RenderOutcome(Reconstruct(a, streams))
  }

  /** A state reached by a pass, and the exception that stopped it, if any. */
  datatype Step = Step(run: Run, failure: Option<GpxError>)

  /** `if streams:` in the backup: a response that is present and not an empty list. */
  predicate Truthy(got: Option<seq<Stream>>) {
    got.Some? && got.value != []
  }

  /** The body of the loop of `save_activities` for one activity; `fetch` stands for `get_streams`. */
  function SaveOne(r: Run, a: Activity, fetch: int -> Option<seq<Stream>>, build: Builder): Step {
    var summary := SummaryName(a.id);
    var written := if summary in r.files then r else r.(files := r.files[summary := SummaryFile(a)], saved := r.saved + 1);
    FetchMissing(written, a, fetch, build)
  }

  /**
   * The second half of that body: when the streams file or the track file is
   * missing, request the streams and, from a truthy response, write whichever
   * is missing, then pause.
   */
  function FetchMissing(r: Run, a: Activity, fetch: int -> Option<seq<Stream>>, build: Builder): Step {
    var streamsName, trackName := StreamsName(a.id), TrackFileName(a.id);
    if streamsName in r.files && trackName in r.files then Step(r, None)
    else
      var requested := r.(fetches := r.fetches + [a.id]);
      var got := fetch(a.id);
      if !Truthy(got) then Step(requested, None)
      else
        var files := if streamsName in r.files then r.files else r.files[streamsName := StreamsFile(got.value)];
        if trackName in files then Step(requested.(files := files, sleeps := r.sleeps + 1), None)
        else match build(a, got.value)
          case NotRepresentable => Step(requested.(files := files, sleeps := r.sleeps + 1), None)
          case Failed(e) => Step(requested.(files := files), Some(e))
          case Produced(text) => Step(requested.(files := files[trackName := TrackFile(text)], sleeps := r.sleeps + 1), None)
  }

  /** The pass over `acts`, stopping at the first exception with everything written so far kept. */
  function SaveAll(r: Run, acts: seq<Activity>, fetch: int -> Option<seq<Stream>>, build: Builder): Step {
    if acts == [] then Step(r, None)
    else
      var prev := SaveAll(r, acts[..|acts| - 1], fetch, build);
      if prev.failure.Some? then prev else SaveOne(prev.run, acts[|acts| - 1], fetch, build)
  }

  /** The summary names of a list of activities. */
  function SummaryNames(acts: seq<Activity>): set<string> {
    if acts == [] then {} else SummaryNames(acts[..|acts| - 1]) + {SummaryName(acts[|acts| - 1].id)}
  }

  /** Every listed activity's summary name is among them. */
  lemma {:induction false} SummaryNamesOf(acts: seq<Activity>)
    ensures forall i :: 0 <= i < |acts| ==> SummaryName(acts[i].id) in SummaryNames(acts)
  {
    if acts != [] {
      var init := acts[..|acts| - 1];
      SummaryNamesOf(init);
      forall i | 0 <= i < |init|
        ensures SummaryName(acts[i].id) in SummaryNames(acts)
      {
        assert init[i] == acts[i];
      }
    }
  }

  /** The three names that belong to activity `a` are all in the directory. */
  predicate Complete(files: map<string, StoredFile>, a: Activity) {
    SummaryName(a.id) in files && StreamsName(a.id) in files && TrackFileName(a.id) in files
  }

  // ---------------------------------------------------------------------------
  // One activity

  /**
   * One activity: existing files keep their contents; new names are only
   * this activity's three; its summary is present afterwards and was written
   * (and counted) exactly when it was missing.
   */
  lemma SaveOneWrites(r: Run, a: Activity, fetch: int -> Option<seq<Stream>>, build: Builder)
    ensures var next := SaveOne(r, a, fetch, build).run;
      && (forall k :: k in r.files ==> k in next.files && next.files[k] == r.files[k])
      && (forall k :: k in next.files ==> k in r.files || k in {SummaryName(a.id), StreamsName(a.id), TrackFileName(a.id)})
      && SummaryName(a.id) in next.files
      && (SummaryName(a.id) !in r.files ==> next.files[SummaryName(a.id)] == SummaryFile(a) && next.saved == r.saved + 1)
      && (SummaryName(a.id) in r.files ==> next.saved == r.saved)
  {
    NamesDistinct(a.id, a.id);
  }

  /**
   * The streams are requested exactly when `{id}_streams.json` or `{id}.gpx`
   * is missing, and the pause is taken exactly when they were requested, the
   * response was truthy and building the track raised nothing.
   */
  lemma FetchAndThrottle(r: Run, a: Activity, fetch: int -> Option<seq<Stream>>, build: Builder)
    ensures var s := SaveOne(r, a, fetch, build);
      var requested := StreamsName(a.id) !in r.files || TrackFileName(a.id) !in r.files;
      && s.run.fetches == (if requested then r.fetches + [a.id] else r.fetches)
      && (s.run.sleeps == r.sleeps + 1 <==> requested && Truthy(fetch(a.id)) && s.failure.None?)
      && (s.run.sleeps != r.sleeps + 1 ==> s.run.sleeps == r.sleeps)
      && (s.failure.Some? ==> requested && Truthy(fetch(a.id)) && TrackFileName(a.id) !in r.files)
  {
    NamesDistinct(a.id, a.id);
  }

  /**
   * `{id}.gpx` is written only from a truthy streams response for which the
   * track builder produced a document, and then holds that document.
   */
  lemma TrackWrittenOnlyWhenProduced(r: Run, a: Activity, fetch: int -> Option<seq<Stream>>, build: Builder)
    requires TrackFileName(a.id) !in r.files
    requires TrackFileName(a.id) in SaveOne(r, a, fetch, build).run.files
    ensures Truthy(fetch(a.id))
    ensures SaveOne(r, a, fetch, build).run.files[TrackFileName(a.id)].TrackFile?
    ensures build(a, fetch(a.id).value) == Produced(SaveOne(r, a, fetch, build).run.files[TrackFileName(a.id)].text)
  {
    NamesDistinct(a.id, a.id);
  }

  /** `{id}_streams.json` is written only from a truthy response, and then holds it. */
  lemma StreamsWrittenOnlyWhenTruthy(r: Run, a: Activity, fetch: int -> Option<seq<Stream>>, build: Builder)
    requires StreamsName(a.id) !in r.files
    requires StreamsName(a.id) in SaveOne(r, a, fetch, build).run.files
    ensures Truthy(fetch(a.id))
    ensures SaveOne(r, a, fetch, build).run.files[StreamsName(a.id)] == StreamsFile(fetch(a.id).value)
  {
    NamesDistinct(a.id, a.id);
  }

  // ---------------------------------------------------------------------------
  // A whole pass

  /** Once the pass has stopped on an exception, longer lists give the same result. */
  lemma {:induction false} SaveAllStopsAt(r: Run, acts: seq<Activity>, fetch: int -> Option<seq<Stream>>, build: Builder, k: nat)
    requires k <= |acts| && SaveAll(r, acts[..k], fetch, build).failure.Some?
    ensures SaveAll(r, acts, fetch, build) == SaveAll(r, acts[..k], fetch, build)
    decreases |acts| - k
  {
    if k < |acts| {
      assert acts[..k + 1][..k] == acts[..k];
      SaveAllStopsAt(r, acts, fetch, build, k + 1);
    } else {
      assert acts[..k] == acts;
    }
  }

  /** A pass never rewrites or removes a file that existed before it. */
  lemma {:induction false} NeverOverwrites(r: Run, acts: seq<Activity>, fetch: int -> Option<seq<Stream>>, build: Builder)
    ensures var files := SaveAll(r, acts, fetch, build).run.files;
      forall k :: k in r.files ==> k in files && files[k] == r.files[k]
  {
    if acts != [] {
      var prev := SaveAll(r, acts[..|acts| - 1], fetch, build);
      NeverOverwrites(r, acts[..|acts| - 1], fetch, build);
      if prev.failure.None? {
        SaveOneWrites(prev.run, acts[|acts| - 1], fetch, build);
      }
    }
  }

  /**
   * After a pass that raised nothing, the summary names in the directory are
   * exactly those present before plus those of the listed activities.
   */
  lemma {:induction false} SummariesAfter(r: Run, acts: seq<Activity>, fetch: int -> Option<seq<Stream>>, build: Builder)
    requires SaveAll(r, acts, fetch, build).failure.None?
    ensures forall id :: (SummaryName(id) in SaveAll(r, acts, fetch, build).run.files
      <==> SummaryName(id) in r.files || SummaryName(id) in SummaryNames(acts))
  {
    if acts != [] {
      var init, last := acts[..|acts| - 1], acts[|acts| - 1];
      var prev := SaveAll(r, init, fetch, build);
      SummariesAfter(r, init, fetch, build);
      SaveOneWrites(prev.run, last, fetch, build);
      forall id
        ensures SummaryName(id) in SaveAll(r, acts, fetch, build).run.files
          <==> SummaryName(id) in r.files || SummaryName(id) in SummaryNames(acts)
      {
        NamesDistinct(id, last.id);
      }
    }
  }

  lemma CountOneMore(before: set<string>, keys: set<string>, x: string)
    ensures |(before + {x}) - keys| == |before - keys| + (if x in before || x in keys then 0 else 1)
  {
    if x in before || x in keys {
      assert (before + {x}) - keys == before - keys;
    } else {
      assert (before + {x}) - keys == (before - keys) + {x};
    }
  }

  /**
   * `saved_count`: a pass that raised nothing counts one summary per listed
   * id whose `{id}.json` was missing, however often the id is listed.
   */
  lemma {:induction false} SavedCount(r: Run, acts: seq<Activity>, fetch: int -> Option<seq<Stream>>, build: Builder)
    requires SaveAll(r, acts, fetch, build).failure.None?
    ensures SaveAll(r, acts, fetch, build).run.saved == r.saved + |SummaryNames(acts) - r.files.Keys|
  {
    if acts != [] {
      var init, last := acts[..|acts| - 1], acts[|acts| - 1];
      var prev := SaveAll(r, init, fetch, build);
      SavedCount(r, init, fetch, build);
      SummariesAfter(r, init, fetch, build);
      SaveOneWrites(prev.run, last, fetch, build);
      CountOneMore(SummaryNames(init), r.files.Keys, SummaryName(last.id));
    }
  }

  /** When every listed summary already exists, a pass writes no summary. */
  lemma {:induction false} NoNewSummaries(r: Run, acts: seq<Activity>, fetch: int -> Option<seq<Stream>>, build: Builder)
    requires forall i :: 0 <= i < |acts| ==> SummaryName(acts[i].id) in r.files
    ensures SaveAll(r, acts, fetch, build).run.saved == r.saved
  {
    if acts != [] {
      var init := acts[..|acts| - 1];
      var prev := SaveAll(r, init, fetch, build);
      NoNewSummaries(r, init, fetch, build);
      NeverOverwrites(r, init, fetch, build);
      if prev.failure.None? {
        SaveOneWrites(prev.run, acts[|acts| - 1], fetch, build);
      }
    }
  }

  /**
   * Re-running over the same list after a pass that raised nothing saves no
   * summary and leaves every file of the first pass as it was, whatever the
   * streams endpoint answers the second time.
   */
  lemma SecondRunSavesNothing(r: Run, acts: seq<Activity>, fetch: int -> Option<seq<Stream>>, refetch: int -> Option<seq<Stream>>, build: Builder)
    requires SaveAll(r, acts, fetch, build).failure.None?
    ensures var first := SaveAll(r, acts, fetch, build).run;
      var second := SaveAll(first.(saved := 0), acts, refetch, build).run;
      && second.saved == 0
      && forall k :: k in first.files ==> k in second.files && second.files[k] == first.files[k]
  {
    var first := SaveAll(r, acts, fetch, build).run;
    SummariesAfter(r, acts, fetch, build);
    SummaryNamesOf(acts);
    NoNewSummaries(first.(saved := 0), acts, refetch, build);
    NeverOverwrites(first.(saved := 0), acts, refetch, build);
  }

  /**
   * Activity `a` has nothing left to write in `files`: its summary exists, and
   * either its streams and track files both exist, or the streams response is
   * falsy, or the streams file exists and the builder declines to produce a track.
   */
  predicate Settled(files: map<string, StoredFile>, a: Activity, fetch: int -> Option<seq<Stream>>, build: Builder) {
    && SummaryName(a.id) in files
    && (|| (StreamsName(a.id) in files && TrackFileName(a.id) in files)
        || !Truthy(fetch(a.id))
        || (StreamsName(a.id) in files && build(a, fetch(a.id).value).NotRepresentable?))
  }

  /** Adding files never unsettles an activity. */
  lemma SettledGrows(files: map<string, StoredFile>, more: map<string, StoredFile>, a: Activity,
                     fetch: int -> Option<seq<Stream>>, build: Builder)
    requires Settled(files, a, fetch, build) && files.Keys <= more.Keys
    ensures Settled(more, a, fetch, build)
  {
  }

  /** An activity the pass has handled without an exception is settled. */
  lemma SettledAfterSave(r: Run, a: Activity, fetch: int -> Option<seq<Stream>>, build: Builder)
    requires SaveOne(r, a, fetch, build).failure.None?
    ensures Settled(SaveOne(r, a, fetch, build).run.files, a, fetch, build)
  {
    NamesDistinct(a.id, a.id);
  }

  /** Handling a settled activity writes nothing and raises nothing. */
  lemma SettledIsFixed(r: Run, a: Activity, fetch: int -> Option<seq<Stream>>, build: Builder)
    requires Settled(r.files, a, fetch, build)
    ensures SaveOne(r, a, fetch, build).run.files == r.files
    ensures SaveOne(r, a, fetch, build).failure.None?
  {
  }

  /** After a pass that raised nothing, every listed activity is settled. */
  lemma {:induction false} AllSettled(r: Run, acts: seq<Activity>, fetch: int -> Option<seq<Stream>>, build: Builder)
    requires SaveAll(r, acts, fetch, build).failure.None?
    ensures forall i :: 0 <= i < |acts| ==> Settled(SaveAll(r, acts, fetch, build).run.files, acts[i], fetch, build)
  {
    if acts != [] {
      var init, last := acts[..|acts| - 1], acts[|acts| - 1];
      var prev := SaveAll(r, init, fetch, build);
      AllSettled(r, init, fetch, build);
      SaveOneGrows(prev.run, last, fetch, build);
      SettledAfterSave(prev.run, last, fetch, build);
      SettledExtend(prev.run.files, SaveOne(prev.run, last, fetch, build).run.files, init, acts, fetch, build);
    }
  }

  lemma SaveOneGrows(r: Run, a: Activity, fetch: int -> Option<seq<Stream>>, build: Builder)
    ensures r.files.Keys <= SaveOne(r, a, fetch, build).run.files.Keys
  {
  }

  /** Settledness of the earlier activities survives the files the last one adds. */
  lemma SettledExtend(files: map<string, StoredFile>, more: map<string, StoredFile>, init: seq<Activity>, acts: seq<Activity>,
                      fetch: int -> Option<seq<Stream>>, build: Builder)
    requires acts != [] && init == acts[..|acts| - 1] && files.Keys <= more.Keys
    requires forall i :: 0 <= i < |init| ==> Settled(files, init[i], fetch, build)
    requires Settled(more, acts[|acts| - 1], fetch, build)
    ensures forall i :: 0 <= i < |acts| ==> Settled(more, acts[i], fetch, build)
  {
    forall i | 0 <= i < |acts|
      ensures Settled(more, acts[i], fetch, build)
    {
      if i < |init| {
        assert init[i] == acts[i];
        SettledGrows(files, more, init[i], fetch, build);
      }
    }
  }

  /** A pass over settled activities leaves the directory as it is and raises nothing. */
  lemma {:induction false} SettledPassIsFixed(r: Run, acts: seq<Activity>, fetch: int -> Option<seq<Stream>>, build: Builder)
    requires forall i :: 0 <= i < |acts| ==> Settled(r.files, acts[i], fetch, build)
    ensures SaveAll(r, acts, fetch, build).run.files == r.files
    ensures SaveAll(r, acts, fetch, build).failure.None?
  {
    if acts != [] {
      var init := acts[..|acts| - 1];
      assert forall i :: 0 <= i < |init| ==> init[i] == acts[i];
      SettledPassIsFixed(r, init, fetch, build);
      SettledIsFixed(SaveAll(r, init, fetch, build).run, acts[|acts| - 1], fetch, build);
    }
  }

  /**
   * Idempotence: re-running over the same list with the same endpoint answers
   * after a pass that raised nothing leaves the directory exactly as the
   * first pass left it, raises nothing and saves no summary.
   */
  lemma RerunIsIdentical(r: Run, acts: seq<Activity>, fetch: int -> Option<seq<Stream>>, build: Builder)
    requires SaveAll(r, acts, fetch, build).failure.None?
    ensures var first := SaveAll(r, acts, fetch, build).run;
      var second := SaveAll(first.(saved := 0), acts, fetch, build);
      && second.run.files == first.files
      && second.failure.None?
      && second.run.saved == 0
  {
    var first := SaveAll(r, acts, fetch, build).run;
    AllSettled(r, acts, fetch, build);
    SettledPassIsFixed(first.(saved := 0), acts, fetch, build);
    SecondRunSavesNothing(r, acts, fetch, fetch, build);
  }

  /** A pass over activities whose three files all exist changes nothing and requests nothing. */
  lemma {:induction false} CompleteIsUntouched(r: Run, acts: seq<Activity>, fetch: int -> Option<seq<Stream>>, build: Builder)
    requires forall i :: 0 <= i < |acts| ==> Complete(r.files, acts[i])
    ensures SaveAll(r, acts, fetch, build) == Step(r, None)
  {
    if acts != [] {
      CompleteIsUntouched(r, acts[..|acts| - 1], fetch, build);
    }
  }

  /**
   * Streams are requested at most once per list entry, and every pause
   * follows a request.
   */
  lemma {:induction false} FetchBudget(r: Run, acts: seq<Activity>, fetch: int -> Option<seq<Stream>>, build: Builder)
    ensures var next := SaveAll(r, acts, fetch, build).run;
      && |r.fetches| <= |next.fetches| <= |r.fetches| + |acts|
      && next.fetches[..|r.fetches|] == r.fetches
      && next.sleeps - r.sleeps <= |next.fetches| - |r.fetches|
      && r.sleeps <= next.sleeps
  {
    if acts != [] {
      var prev := SaveAll(r, acts[..|acts| - 1], fetch, build);
      FetchBudget(r, acts[..|acts| - 1], fetch, build);
      if prev.failure.None? {
        FetchAndThrottle(prev.run, acts[|acts| - 1], fetch, build);
        var next := SaveAll(r, acts, fetch, build).run;
        assert next.fetches[..|prev.run.fetches|] == prev.run.fetches;
        assert next.fetches[..|r.fetches|] == prev.run.fetches[..|r.fetches|];
      }
    }
  }

  // ---------------------------------------------------------------------------
  // The directory as the backup mutates it

  class ActivityStore {
    /** Whether the backup directory exists. */
    var present: bool
    /** The files of the directory, by name. */
    var files: map<string, StoredFile>
    /** The one-second pauses taken so far. */
    var sleeps: nat
    /** The ids whose streams were requested so far, in order. */
    var fetches: seq<int>

    /** An absent directory holds no files. */
    ghost predicate Valid()
      reads this
    {
      !present ==> files == map[]
    }

    /** A store whose directory does not exist yet. */
    constructor ()
      ensures Valid() && !present && files == map[] && sleeps == 0 && fetches == []
    {
      present := false;
      files := map[];
      sleeps := 0;
      fetches := [];
    }

    /**
     * The body of the loop of `save_activities` for one activity, with the
     * count of summaries written so far.
     */
    method SaveActivity(activity: Activity, fetch: int -> Option<seq<Stream>>, savedBefore: nat)
      returns (saved: nat, failure: Option<GpxError>)
      requires present
      modifies this
      ensures present == old(present)
      ensures var s := SaveOne(Run(old(files), old(sleeps), old(fetches), savedBefore), activity, fetch, TrackOf);
        && files == s.run.files && sleeps == s.run.sleeps && fetches == s.run.fetches
        && saved == s.run.saved && failure == s.failure
    {
      saved := savedBefore;
      var summary := SummaryName(activity.id);
      if summary !in files {
        files := files[summary := SummaryFile(activity)];
        saved := saved + 1;
      }
      failure := FetchStreams(activity, fetch, saved);
    }

    /** The streams request and the writes that follow it, for one activity. */
    method FetchStreams(activity: Activity, fetch: int -> Option<seq<Stream>>, saved: nat)
      returns (failure: Option<GpxError>)
      requires present
      modifies this
      ensures present == old(present)
      ensures var s := FetchMissing(Run(old(files), old(sleeps), old(fetches), saved), activity, fetch, TrackOf);
        && files == s.run.files && sleeps == s.run.sleeps && fetches == s.run.fetches
        && saved == s.run.saved && failure == s.failure
    {
      failure := None;
      var streamsName, trackName := StreamsName(activity.id), TrackFileName(activity.id);
      if streamsName !in files || trackName !in files {
        fetches := fetches + [activity.id];
        var streams := fetch(activity.id);
        if streams.Some? && streams.value != [] {
          if streamsName !in files {
            files := files[streamsName := StreamsFile(streams.value)];
          }
          if trackName !in files {
            failure := WriteTrack(activity, streams.value);
            if failure.Some? {
              return;
            }
          }
          sleeps := sleeps + 1;
        }
      }
    }

    /** Builds the track document and writes `{id}.gpx` when one is produced. */
    method WriteTrack(activity: Activity, streams: seq<Stream>) returns (failure: Option<GpxError>)
      requires present
      modifies this
      ensures present == old(present) && sleeps == old(sleeps) && fetches == old(fetches)
      ensures match TrackOf(activity, streams)
        case NotRepresentable => files == old(files) && failure == None
        case Failed(e) => files == old(files) && failure == Some(e)
        case Produced(text) => files == old(files)[TrackFileName(activity.id) := TrackFile(text)] && failure == None
    {
      failure := None;
      var content := CreateGpx(activity, streams);
      if content.Failed? {
        return Some(content.error);
      }
      if content.Produced? {
        files := files[TrackFileName(activity.id) := TrackFile(content.value)];
      }
    }

    /**
     * `save_activities`: creates the directory if needed, then for each
     * activity writes the missing summary, and requests the streams when the
     * streams file or the track file is missing. Returns the number of
     * summaries written, and the exception from the track builder that ended
     * the pass early, if any.
     */
    method SaveActivities(activities: seq<Activity>, fetch: int -> Option<seq<Stream>>)
      returns (saved: nat, failure: Option<GpxError>)
      requires Valid()
      modifies this
      ensures Valid() && present
      ensures var s := SaveAll(Run(old(files), old(sleeps), old(fetches), 0), activities, fetch, TrackOf);
        && files == s.run.files && sleeps == s.run.sleeps && fetches == s.run.fetches
        && saved == s.run.saved && failure == s.failure
    {
      present := true;
      ghost var start := Run(files, sleeps, fetches, 0);
      saved := 0;
      failure := None;
      for i := 0 to |activities|
        invariant present && failure.None?
        invariant SaveAll(start, activities[..i], fetch, TrackOf) == Step(Run(files, sleeps, fetches, saved), None)
      {
        assert activities[..i + 1][..i] == activities[..i];
        saved, failure := SaveActivity(activities[i], fetch, saved);
        if failure.Some? {
          SaveAllStopsAt(start, activities, fetch, TrackOf, i + 1);
          return;
        }
      }
      assert activities[..|activities|] == activities;
    }
  }
}
