/**
 * One run of the backup: find the resume cursor in the directory, list the
 * activities that started after it, and save them. The token exchange is
 * not modelled; the activities endpoint and the streams endpoint are
 * parameters.
 */
module Backup {
  import opened Opt
  import opened UtcTime
  import opened Records
  import opened Listing
  import opened Gpx
  import opened Store
  import opened Cursor

  /**
   * `main` after the credential check: the cursor scan, the listing from
   * that cursor, and the pass of `save_activities` over the listed entries.
   * The listing must end from the cursor the scan computes; `CursorUnique`
   * shows there is only one cursor `IsCursor` admits.
   */
  method RunBackup(store: ActivityStore, server: Request -> PageResponse, fetch: int -> Option<seq<Stream>>)
    returns (after: Option<int>, requests: seq<Request>, activities: seq<Activity>, saved: nat, failure: Option<GpxError>)
    requires store.Valid()
    requires forall a :: IsCursor(store.present, store.files, a) ==> Ends(server, a)
    modifies store
    ensures store.Valid() && store.present
    ensures after.None? <==> !old(store.present) || forall n :: n in old(store.files) ==> StartOf(n, old(store.files)[n]).None?
    ensures after.Some? ==>
      exists n :: n in old(store.files) && StartOf(n, old(store.files)[n]).Some? && after.value == ToEpoch(StartOf(n, old(store.files)[n]).value)
    ensures after.Some? ==> forall n :: n in old(store.files) && StartOf(n, old(store.files)[n]).Some? ==>
      ToEpoch(StartOf(n, old(store.files)[n]).value) <= after.value
    ensures FirstStop(server, after, |requests|)
    ensures forall i :: 0 <= i < |requests| ==> requests[i] == RequestFor(i + 1, after)
    ensures activities == Fetched(server, after, |requests| - 1)
    ensures var s := SaveAll(Run(old(store.files), old(store.sleeps), old(store.fetches), 0), activities, fetch, TrackOf);
      && store.files == s.run.files && store.sleeps == s.run.sleeps && store.fetches == s.run.fetches
      && saved == s.run.saved && failure == s.failure
    ensures failure.None? ==> forall i :: 0 <= i < |activities| ==> SummaryName(activities[i].id) in store.files
  {
    after := ResumeCursor(store.present, store.files);
    assert IsCursor(store.present, store.files, after);
    activities, requests := GetActivities(server, after);
    ghost var before := Run(store.files, store.sleeps, store.fetches, 0);
    saved, failure := store.SaveActivities(activities, fetch);
    if failure.None? {
      SummariesAfter(before, activities, fetch, TrackOf);
      SummaryNamesOf(activities);
    }
  }
}
