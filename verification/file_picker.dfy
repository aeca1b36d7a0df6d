/**
 The "Documents folder" entry: a generic document picker, a list of picked
 files, and a sheet that previews the selected file. When the sheet goes
 away while the preview is still active, a retry re-opens it one second
 later, at most `MaxRetryCount` times. The one-second delay is not modelled
 as time: scheduling a retry adds to `pendingRetries`, and the delayed block
 running is the separate event `RetryFires`.
 */
module FilePicker {
  import opened Maybe
  import opened Urls
  import BranchedPicker

  const MaxRetryCount := 10

  datatype View = View(
    pickedDocuments: seq<Url>,
    selectedFileURL: Option<Url>,
    showModelView: bool,
    retryCount: nat,
    isActive: bool,
    pendingRetries: nat)

  function Initial(): View
  {
    View([], None, false, 0, false, 0)
  }

  /** The condition under which the `onChange` handler schedules a retry. */
  predicate RetryGuard(v: View)
  {
    !v.showModelView && v.selectedFileURL.Some? && v.retryCount < MaxRetryCount && v.isActive
  }

  /**
   SwiftUI's `onChange(of: showModelView)`: once a write has changed the flag,
   the handler sees the new state and schedules one delayed retry if the guard
   holds. A write that leaves the flag as it was runs no handler.
   */
  function Settle(before: View, after: View): (r: View)
    ensures r.(pendingRetries := after.pendingRetries) == after
    ensures r.pendingRetries > after.pendingRetries <==>
      before.showModelView && !after.showModelView && RetryGuard(after)
    ensures r.pendingRetries <= after.pendingRetries + 1
  {
    if before.showModelView != after.showModelView && RetryGuard(after) then
      after.(pendingRetries := after.pendingRetries + 1)
    else
      after
  }

  /** `DocumentPicker.Coordinator`: the picked URLs replace the list, unfiltered. */
  function PickDocuments(v: View, urls: seq<Url>): (r: View)
    ensures r.pickedDocuments == urls
    ensures r.(pickedDocuments := v.pickedDocuments) == v
  {
    v.(pickedDocuments := urls)
  }

  /** `selectFile(_:)`: select the file, reset the retry count and open an active preview. */
  function SelectFile(v: View, url: Url): (r: View)
    ensures r.selectedFileURL == Some(url) && r.retryCount == 0
    ensures r.showModelView && r.isActive
    ensures r.pendingRetries == v.pendingRetries && r.pickedDocuments == v.pickedDocuments
  {
    Settle(v, v.(selectedFileURL := Some(url), retryCount := 0, showModelView := true, isActive := true))
  }

  /** `cleanupAfterDismiss()`: close the preview, forget the file and stop retrying. */
  function CleanupAfterDismiss(v: View): (r: View)
    ensures !r.showModelView && r.selectedFileURL.None? && r.retryCount == 0 && !r.isActive
    ensures r.pendingRetries == v.pendingRetries && r.pickedDocuments == v.pickedDocuments
    ensures !RetryGuard(r)
  {
    Settle(v, v.(showModelView := false, selectedFileURL := None, retryCount := 0, isActive := false))
  }

  /** The preview's `endCaptureCallback`: deactivate, then clean up. */
  function EndCapture(v: View): (r: View)
    ensures r == CleanupAfterDismiss(v)
    ensures !r.isActive && !r.showModelView && r.pendingRetries == v.pendingRetries
  {
    var inactive := Settle(v, v.(isActive := false));
    CleanupAfterDismiss(inactive)
  }

  /** The sheet's binding writes `false` when the sheet is swiped away or torn down. */
  function SheetClosed(v: View): (r: View)
    ensures !r.showModelView
    ensures r.selectedFileURL == v.selectedFileURL && r.retryCount == v.retryCount && r.isActive == v.isActive
    ensures r.pendingRetries == v.pendingRetries + (if v.showModelView && RetryGuard(r) then 1 else 0)
  {
    Settle(v, v.(showModelView := false))
  }

  /** The delayed retry block: count one more retry and re-open the sheet. It checks no guard. */
  function RetryFires(v: View): (r: View)
    requires v.pendingRetries > 0
    ensures r.retryCount == v.retryCount + 1 && r.showModelView
    ensures r.pendingRetries == v.pendingRetries - 1
    ensures r.selectedFileURL == v.selectedFileURL && r.isActive == v.isActive
  {
    Settle(v, v.(retryCount := v.retryCount + 1, showModelView := true, pendingRetries := v.pendingRetries - 1))
  }

  datatype Event =
    | Pick(urls: seq<Url>)
    | Select(url: Url)
    | Closed              // the sheet's binding turned false
    | Dismissed           // the sheet's `onDismiss`
    | PreviewWillDismiss  // the preview controller calls `endCaptureCallback`
    | RetryTimer          // a scheduled retry's delay has elapsed

  /** One event; a timer with no retry pending does not occur and changes nothing. */
  function Step(v: View, e: Event): View
  {
    match e
    case Pick(urls) => PickDocuments(v, urls)
    case Select(url) => SelectFile(v, url)
    case Closed => SheetClosed(v)
    case Dismissed => CleanupAfterDismiss(v)
    case PreviewWillDismiss => EndCapture(v)
    case RetryTimer => if v.pendingRetries > 0 then RetryFires(v) else v
  }

  function Run(v: View, events: seq<Event>): View
    decreases |events|
  {
    if |events| == 0 then v else Run(Step(v, events[0]), events[1..])
  }

  /** Cleaning up twice is the same as cleaning up once. */
  lemma CleanupIdempotent(v: View)
    ensures CleanupAfterDismiss(CleanupAfterDismiss(v)) == CleanupAfterDismiss(v)
  {
  }

  /**
   A retry is scheduled exactly when the sheet's flag drops from true to false
   while a file is selected, fewer than `MaxRetryCount` retries were made and
   the preview is active; no other event schedules one.
   */
  lemma RetryScheduledOnlyUnderGuard(v: View, e: Event)
    ensures Step(v, e).pendingRetries > v.pendingRetries <==>
      e.Closed? && v.showModelView && v.selectedFileURL.Some?
      && v.retryCount < MaxRetryCount && v.isActive
    ensures Step(v, e).pendingRetries <= v.pendingRetries + 1
  {
  }

  /**
   The retry bound: at most one retry pending, none pending while the sheet is
   up, and the retries made plus the one pending never exceed `MaxRetryCount`.
   */
  ghost predicate RetriesBounded(v: View)
  {
    && v.pendingRetries <= 1
    && (v.pendingRetries == 1 ==> !v.showModelView)
    && v.retryCount + v.pendingRetries <= MaxRetryCount
  }

  /** Re-selecting a file while a retry is still pending is the one step that may break the bound. */
  predicate Reselects(v: View, e: Event)
  {
    e.Select? && v.pendingRetries > 0
  }

  lemma StepKeepsRetriesBounded(v: View, e: Event)
    requires RetriesBounded(v) && !Reselects(v, e)
    ensures RetriesBounded(Step(v, e))
  {
  }

  /** True when no event of the run re-selects a file while a retry is pending. */
  ghost predicate NoReselect(v: View, events: seq<Event>)
    decreases |events|
  {
    |events| == 0 || (!Reselects(v, events[0]) && NoReselect(Step(v, events[0]), events[1..]))
  }

  lemma {:induction false} RunKeepsRetriesBounded(v: View, events: seq<Event>)
    requires RetriesBounded(v) && NoReselect(v, events)
    ensures RetriesBounded(Run(v, events))
    ensures Run(v, events).retryCount <= MaxRetryCount
    decreases |events|
  {
    if |events| > 0 {
      StepKeepsRetriesBounded(v, events[0]);
      RunKeepsRetriesBounded(Step(v, events[0]), events[1..]);
    }
  }

  /** From a fresh view, retries never exceed `MaxRetryCount` unless a file is re-selected mid-retry. */
  lemma RetryCountBounded(events: seq<Event>)
    requires NoReselect(Initial(), events)
    ensures Run(Initial(), events).retryCount <= MaxRetryCount
  {
    RunKeepsRetriesBounded(Initial(), events);
  }

  /**
   Re-selecting within the retry delay lets two retries be pending at once, so
   the single-pending shape of the bound really needs the `NoReselect` premise.
   */
  lemma TwoRetriesCanBePending(url: Url)
    ensures Run(Initial(), [Select(url), Closed, Select(url), Closed]).pendingRetries == 2
  {
    var events := [Select(url), Closed, Select(url), Closed];
    var v1 := SelectFile(Initial(), url);
    var v2 := SheetClosed(v1);
    var v3 := SelectFile(v2, url);
    var v4 := SheetClosed(v3);
    assert v2.pendingRetries == 1 && v4.pendingRetries == 2;
    assert events[1..][1..][1..][1..] == [];
    assert Run(v4, []) == v4;
    assert Run(Initial(), events) == Run(v1, events[1..]) == Run(v2, events[1..][1..]);
    assert Run(v2, events[1..][1..]) == Run(v3, events[1..][1..][1..]) == Run(v4, []);
  }

  /**
   After cleanup or the preview's dismissal, as long as no file is selected
   again, no new retry is ever scheduled and the view stays inactive.
   */
  lemma {:induction false} InactiveSchedulesNothing(v: View, events: seq<Event>)
    requires !v.isActive
    requires forall k :: 0 <= k < |events| ==> !events[k].Select?
    ensures Run(v, events).pendingRetries <= v.pendingRetries
    ensures !Run(v, events).isActive
    decreases |events|
  {
    if |events| > 0 {
      var next := Step(v, events[0]);
      assert next.pendingRetries <= v.pendingRetries && !next.isActive;
      InactiveSchedulesNothing(next, events[1..]);
    }
  }

  /** Dismissing the preview stops retries for good, until another file is selected. */
  lemma DismissStopsRetries(v: View, events: seq<Event>)
    requires forall k :: 0 <= k < |events| ==> !events[k].Select?
    ensures Run(EndCapture(v), events).pendingRetries <= v.pendingRetries
    ensures Run(CleanupAfterDismiss(v), events).pendingRetries <= v.pendingRetries
  {
    InactiveSchedulesNothing(EndCapture(v), events);
    InactiveSchedulesNothing(CleanupAfterDismiss(v), events);
  }

  /**
   A retry scheduled before cleanup still runs after it: the sheet re-opens
   with no file selected, which the sheet shows as an empty view.
   */
  lemma LateRetryOpensEmptySheet(v: View)
    requires v.pendingRetries > 0
    ensures var r := RetryFires(CleanupAfterDismiss(v));
      r.showModelView && r.selectedFileURL.None? && !r.isActive && r.retryCount == 1
  {
  }

  /** Unlike the usdz-only picker, the generic picker lists a batch with no usdz file in it. */
  lemma GenericPickerListsWhatUsdzPickerRejects(v: View, p: BranchedPicker.PickerView)
    ensures PickDocuments(v, ["notes.txt"]).pickedDocuments == ["notes.txt"]
    ensures BranchedPicker.DidPickDocuments(p, ["notes.txt"]).pickedDocuments == p.pickedDocuments
  {
  }
}
