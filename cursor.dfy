/**
 * The resume cursor of a backup run: before listing, the backup scans the
 * directory for activity summaries and asks the provider only for
 * activities that started after the latest start date it finds.
 */
module Cursor {
  import opened Opt
  import opened UtcTime
  import opened Records
  import opened Store

  predicate EndsWith(s: string, suffix: string) {
    |suffix| <= |s| && s[|s| - |suffix|..] == suffix
  }

  /** The scan reads a file only when its name ends in `.json` but not in `_streams.json`. */
  predicate IsSummaryFileName(name: string) {
    EndsWith(name, ".json") && !EndsWith(name, "_streams.json")
  }

  /**
   * The start instant a directory entry contributes: present only for a
   * summary-named file that reads back as a summary whose `start_date` is a
   * non-empty string in the strict format. Every other entry is skipped.
   */
  function StartOf(name: string, file: StoredFile): Option<DateTime> {
    if IsSummaryFileName(name) && file.SummaryFile? && file.activity.startDate.Some?
       && file.activity.startDate.value != ""
    then Parse(file.activity.startDate.value)
    else None
  }

  /**
   * One entry of the scan: the name filter, reading the file back, and
   * parsing its `start_date`; `None` where the entry is skipped, including
   * where reading or parsing raises.
   */
  method EntryStart(name: string, file: StoredFile) returns (start: Option<DateTime>)
    ensures start == StartOf(name, file)
  {
    start := None;
    if EndsWith(name, ".json") && !EndsWith(name, "_streams.json") && file.SummaryFile? {
      var startDate := file.activity.startDate;
      if startDate.Some? && startDate.value != "" {
        start := Parse(startDate.value);
      }
    }
  }

  /** `if latest_date is None or start_date > latest_date`: keeps the later of the two instants. */
  method Later(latest: Option<DateTime>, start: Option<DateTime>) returns (next: Option<DateTime>)
    ensures start.None? ==> next == latest
    ensures start.Some? && latest.None? ==> next == start
    ensures start.Some? && latest.Some? ==>
      next == (if Before(latest.value, start.value) then start else latest)
  {
    next := latest;
    if start.Some? {
      if latest.None? || Before(latest.value, start.value) {
        next := start;
      }
    }
  }

  /**
   * What the scan knows after visiting the entries in `seen`: their start
   * instants, and `latest` the greatest of them (`None` when none has one).
   */
  ghost predicate Scanned(files: map<string, StoredFile>, seen: set<string>, latest: Option<DateTime>) {
    && seen <= files.Keys
    && (latest.None? <==> forall n :: n in seen ==> StartOf(n, files[n]).None?)
    && (latest.Some? ==> exists n :: n in seen && StartOf(n, files[n]) == latest)
    && (latest.Some? ==> forall n :: n in seen && StartOf(n, files[n]).Some? ==> !Before(latest.value, StartOf(n, files[n]).value))
  }

  /** Visiting one more entry and keeping the later instant extends what the scan knows. */
  lemma ScanStep(files: map<string, StoredFile>, seen: set<string>, latest: Option<DateTime>,
                 name: string, next: Option<DateTime>)
    requires Scanned(files, seen, latest) && name in files
    requires var start := StartOf(name, files[name]);
      next == (if start.None? then latest
               else if latest.None? || Before(latest.value, start.value) then start
               else latest)
    ensures Scanned(files, seen + {name}, next)
  {
    var start := StartOf(name, files[name]);
    if start.Some? {
      BeforeOrder(next.value, start.value, start.value);
      if latest.Some? && next != latest {
        forall n | n in seen && StartOf(n, files[n]).Some?
          ensures !Before(next.value, StartOf(n, files[n]).value)
        {
          BeforeOrder(latest.value, next.value, StartOf(n, files[n]).value);
        }
      }
    }
  }

  /**
   * The loop of the cursor scan: the latest start date among the entries of
   * the directory, visiting them in any order. No entry starts after it.
   */
  method LatestStart(files: map<string, StoredFile>) returns (latest: Option<DateTime>)
    ensures latest.None? <==> forall n :: n in files ==> StartOf(n, files[n]).None?
    ensures latest.Some? ==> exists n :: n in files && StartOf(n, files[n]) == latest
    ensures latest.Some? ==>
      forall n :: n in files && StartOf(n, files[n]).Some? ==> !Before(latest.value, StartOf(n, files[n]).value)
  {
    latest := None;
    var names := files.Keys;
    ghost var seen: set<string> := {};
    while names != {}
      invariant names <= files.Keys && seen == files.Keys - names
      invariant Scanned(files, seen, latest)
      decreases |names|
    {
      var name :| name in names;
      var start := EntryStart(name, files[name]);
      ghost var previous := latest;
      latest := Later(latest, start);
      ScanStep(files, seen, previous, name, latest);
      names := names - {name};
      seen := seen + {name};
    }
  }

  /**
   * The cursor scan of `main`: the epoch second of the latest start date among
   * the directory's summaries, or `None` when the directory is absent or no
   * summary carries a readable start date.
   */
  method ResumeCursor(present: bool, files: map<string, StoredFile>) returns (after: Option<int>)
    ensures after.None? <==> !present || forall n :: n in files ==> StartOf(n, files[n]).None?
    ensures after.Some? ==>
      exists n :: n in files && StartOf(n, files[n]).Some? && after.value == ToEpoch(StartOf(n, files[n]).value)
    ensures after.Some? ==>
      forall n :: n in files && StartOf(n, files[n]).Some? ==> ToEpoch(StartOf(n, files[n]).value) <= after.value
  {
    after := None;
    if present {
      var latest := LatestStart(files);
      if latest.Some? {
        after := Some(ToEpoch(latest.value));
        forall n | n in files && StartOf(n, files[n]).Some?
          ensures ToEpoch(StartOf(n, files[n]).value) <= after.value
        {
          EpochOrder(latest.value, StartOf(n, files[n]).value);
        }
      }
    }
  }

  /** The cursor `ResumeCursor` promises: absent exactly when no summary is dated, otherwise the latest start instant. */
  ghost predicate IsCursor(present: bool, files: map<string, StoredFile>, after: Option<int>) {
    && (after.None? <==> !present || forall n :: n in files ==> StartOf(n, files[n]).None?)
    && (after.Some? ==>
      exists n :: n in files && StartOf(n, files[n]).Some? && after.value == ToEpoch(StartOf(n, files[n]).value))
    && (after.Some? ==>
      forall n :: n in files && StartOf(n, files[n]).Some? ==> ToEpoch(StartOf(n, files[n]).value) <= after.value)
  }

  /** A directory determines its cursor: two cursors that both meet `IsCursor` are equal. */
  lemma CursorUnique(present: bool, files: map<string, StoredFile>, a: Option<int>, b: Option<int>)
    requires IsCursor(present, files, a) && IsCursor(present, files, b)
    ensures a == b
  {
    if a.Some? && b.Some? {
      CursorBelow(present, files, a, b);
      CursorBelow(present, files, b, a);
    }
  }

  /** A cursor is attained, so it lies below any other cursor of the same directory. */
  lemma CursorBelow(present: bool, files: map<string, StoredFile>, a: Option<int>, b: Option<int>)
    requires IsCursor(present, files, a) && IsCursor(present, files, b) && a.Some? && b.Some?
    ensures a.value <= b.value
  {
    var n :| n in files && StartOf(n, files[n]).Some? && a.value == ToEpoch(StartOf(n, files[n]).value);
    assert ToEpoch(StartOf(n, files[n]).value) <= b.value;
  }

  /**
   * The scan picks out exactly the summaries the backup writes: `{id}.json`
   * passes the name filter, `{id}_streams.json` and `{id}.gpx` do not.
   */
  lemma ScanSeesSummaries(id: int)
    ensures IsSummaryFileName(SummaryName(id))
    ensures !IsSummaryFileName(StreamsName(id))
    ensures !IsSummaryFileName(TrackFileName(id))
  {
    var digits := Decimal.Integer(id);
    var s := SummaryName(id);
    assert s[|s| - 5..] == ".json";
    if |s| >= 13 {
      assert s[|s| - 13] == digits[|s| - 13];
    }
    var t := StreamsName(id);
    assert t[|t| - 13..] == "_streams.json";
    var g := TrackFileName(id);
    assert g[|g| - 4..] == ".gpx";
    assert g[|g| - 1] == 'x';
  }

  /** A summary written by the backup contributes its own start date, when that parses. */
  lemma SavedSummaryStart(a: Activity)
    ensures StartOf(SummaryName(a.id), SummaryFile(a))
      == (if a.startDate.Some? then Parse(a.startDate.value) else None)
  {
    ScanSeesSummaries(a.id);
    if a.startDate.Some? && a.startDate.value == "" {
      assert !WellShaped(a.startDate.value);
    }
  }
}
