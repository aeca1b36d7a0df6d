/**
 The preview sheet: `ModelView` shows a spinner until a one-second delay has
 passed, then hosts a QuickLook controller through a wrapper view controller.
 The wrapper reloads the controller only when the URL it last recorded
 changes, and presents it from its first appearance until the presentation
 completes. The counters `reloads` and `presents` record the calls made to
 QuickLook. What the controller shows comes from its data source, the
 coordinator, which keeps the file it was created with.
 */
module QuickLook {
  import opened Maybe
  import opened Urls

  /** `ModelView`: `pendingDelays` counts the delayed blocks `onAppear` has scheduled. */
  datatype ModelView = ModelView(modelFile: Url, isLoading: bool, pendingDelays: nat)

  function NewModelView(modelFile: Url): ModelView
  {
    ModelView(modelFile, true, 0)
  }

  /** The view hosts the QuickLook controller exactly when it is no longer loading. */
  predicate ShowsPreview(mv: ModelView)
  {
    !mv.isLoading
  }

  datatype ModelViewEvent = Appear | LoadDelayElapsed

  /** `onAppear` schedules the delayed block; when it runs, loading is over. */
  function ModelViewStep(mv: ModelView, e: ModelViewEvent): (r: ModelView)
    ensures r.modelFile == mv.modelFile
    ensures r.isLoading ==> mv.isLoading
  {
    match e
    case Appear => mv.(pendingDelays := mv.pendingDelays + 1)
    case LoadDelayElapsed =>
      if mv.pendingDelays > 0 then mv.(isLoading := false, pendingDelays := mv.pendingDelays - 1) else mv
  }

  function ModelViewRun(mv: ModelView, events: seq<ModelViewEvent>): ModelView
    decreases |events|
  {
    if |events| == 0 then mv else ModelViewRun(ModelViewStep(mv, events[0]), events[1..])
  }

  /** `isLoading` only ever turns from true to false: once the preview is shown it stays shown. */
  lemma {:induction false} LoadingOnlyClears(mv: ModelView, events: seq<ModelViewEvent>)
    ensures ModelViewRun(mv, events).isLoading ==> mv.isLoading
    ensures ShowsPreview(mv) ==> ShowsPreview(ModelViewRun(mv, events))
    ensures ModelViewRun(mv, events).modelFile == mv.modelFile
    decreases |events|
  {
    if |events| > 0 {
      LoadingOnlyClears(ModelViewStep(mv, events[0]), events[1..]);
    }
  }

  /** A new view starts with the spinner, and its first appearance plus the delay bring up the preview. */
  lemma AppearThenDelayShowsPreview(modelFile: Url)
    ensures !ShowsPreview(NewModelView(modelFile))
    ensures ShowsPreview(ModelViewRun(NewModelView(modelFile), [Appear, LoadDelayElapsed]))
  {
  }

  /** `ARQuickLookController.Coordinator`, the controller's data source and delegate. */
  datatype Coordinator = Coordinator(modelFile: Url)

  function NumberOfPreviewItems(c: Coordinator): int
  {
    1
  }

  function PreviewItemAt(c: Coordinator, index: int): Url
  {
    c.modelFile
  }

  /**
   `QLPreviewControllerWrapper`: the URL it last recorded, the data source
   given to its controller, whether the presentation has completed, and the
   reload and present calls made so far. `completionsPending` counts
   presentations whose completion has not yet run.
   */
  datatype Wrapper = Wrapper(
    currentURL: Option<Url>,
    dataSource: Option<Coordinator>,
    qlPresented: bool,
    reloads: nat,
    presents: nat,
    completionsPending: nat)

  function NewWrapper(): Wrapper
  {
    Wrapper(None, None, false, 0, 0, 0)
  }

  /**
   `prepare(modelFile:coordinator:)`: record the URL and hand the coordinator
   to the controller as its data source; nothing is reloaded or presented.
   */
  function Prepare(w: Wrapper, modelFile: Url, coordinator: Coordinator): (r: Wrapper)
    ensures r.currentURL == Some(modelFile) && r.dataSource == Some(coordinator)
    ensures r.(currentURL := w.currentURL, dataSource := w.dataSource) == w
  {
    w.(currentURL := Some(modelFile), dataSource := Some(coordinator))
  }

  /**
   `makeUIViewController`: a new wrapper prepared with the file, whose data
   source is the coordinator made from the same view, holding the same file.
   */
  function MakeWrapper(modelFile: Url): Wrapper
  {
    Prepare(NewWrapper(), modelFile, Coordinator(modelFile))
  }

  /** The item the controller shows after a (re)load: what its data source serves at index 0. */
  function ServedItem(w: Wrapper): Option<Url>
  {
    match w.dataSource
    case None => None
    case Some(c) => if 0 < NumberOfPreviewItems(c) then Some(PreviewItemAt(c, 0)) else None
  }

  /** `updatePreviewItem(_:)`: reload only for a URL different from the one last recorded. The data source is not touched. */
  function UpdatePreviewItem(w: Wrapper, item: Url): (r: Wrapper)
    ensures r.currentURL == Some(item)
    ensures w.currentURL == Some(item) ==> r == w
    ensures w.currentURL != Some(item) ==> r.reloads == w.reloads + 1
    ensures r.dataSource == w.dataSource
    ensures r.(currentURL := w.currentURL, reloads := w.reloads) == w
  {
    if Some(item) != w.currentURL then
      w.(reloads := w.reloads + 1, currentURL := Some(item))
    else
      w
  }

  /** `viewDidAppear(_:)`: present the controller unless a presentation has completed. */
  function ViewDidAppear(w: Wrapper): (r: Wrapper)
    ensures r.presents > w.presents <==> !w.qlPresented
    ensures r.presents <= w.presents + 1
    ensures r.currentURL == w.currentURL && r.qlPresented == w.qlPresented && r.reloads == w.reloads
  {
    if !w.qlPresented then
      w.(presents := w.presents + 1, completionsPending := w.completionsPending + 1)
    else
      w
  }

  /** The presentation's completion block. */
  function PresentCompleted(w: Wrapper): (r: Wrapper)
    requires w.completionsPending > 0
    ensures r.qlPresented && r.presents == w.presents && r.completionsPending == w.completionsPending - 1
  {
    w.(qlPresented := true, completionsPending := w.completionsPending - 1)
  }

  /** Applying the same update twice is the same as applying it once. */
  lemma UpdateIdempotent(w: Wrapper, item: Url)
    ensures UpdatePreviewItem(UpdatePreviewItem(w, item), item) == UpdatePreviewItem(w, item)
  {
  }

  /** SwiftUI's first update right after creation passes the same file, so it reloads nothing. */
  lemma FirstUpdateReloadsNothing(modelFile: Url)
    ensures UpdatePreviewItem(MakeWrapper(modelFile), modelFile).reloads == 0
  {
  }

  function Updates(w: Wrapper, items: seq<Url>): Wrapper
    decreases |items|
  {
    if |items| == 0 then w else Updates(UpdatePreviewItem(w, items[0]), items[1..])
  }

  /** How many items of `items` differ from the item before them, `previous` standing before the first. */
  function Changes(previous: Option<Url>, items: seq<Url>): (n: nat)
    ensures n <= |items|
    decreases |items|
  {
    if |items| == 0 then 0
    else (if previous == Some(items[0]) then 0 else 1) + Changes(Some(items[0]), items[1..])
  }

  /**
   A run of updates reloads once per change of URL along the run and ends
   showing the last URL.
   */
  lemma {:induction false} ReloadsCountChanges(w: Wrapper, items: seq<Url>)
    ensures Updates(w, items).reloads == w.reloads + Changes(w.currentURL, items)
    ensures |items| > 0 ==> Updates(w, items).currentURL == Some(items[|items| - 1])
    ensures |items| == 0 ==> Updates(w, items) == w
    decreases |items|
  {
    if |items| > 0 {
      var next := UpdatePreviewItem(w, items[0]);
      ReloadsCountChanges(next, items[1..]);
      if |items| > 1 {
        assert items[1..][|items[1..]| - 1] == items[|items| - 1];
      }
    }
  }

  /** Updating with the same URL any number of times reloads at most once. */
  lemma {:induction false} RepeatedUpdateReloadsOnce(w: Wrapper, item: Url, n: nat)
    ensures Updates(w, seq(n, _ => item)).reloads ==
      w.reloads + (if n == 0 || w.currentURL == Some(item) then 0 else 1)
    ensures Updates(w, seq(n, _ => item)).reloads <= w.reloads + 1
    decreases n
  {
    if n > 0 {
      var items := seq(n, _ => item);
      assert items[0] == item && items[1..] == seq(n - 1, _ => item);
      var next := UpdatePreviewItem(w, item);
      RepeatedUpdateReloadsOnce(next, item, n - 1);
    }
  }

  datatype WrapperEvent = Appeared | Completed | Update(item: Url)

  function WrapperStep(w: Wrapper, e: WrapperEvent): Wrapper
  {
    match e
    case Appeared => ViewDidAppear(w)
    case Completed => if w.completionsPending > 0 then PresentCompleted(w) else w
    case Update(item) => UpdatePreviewItem(w, item)
  }

  function WrapperRun(w: Wrapper, events: seq<WrapperEvent>): Wrapper
    decreases |events|
  {
    if |events| == 0 then w else WrapperRun(WrapperStep(w, events[0]), events[1..])
  }

  /** Once the presentation has completed, no later appearance or update presents again. */
  lemma {:induction false} PresentedPresentsNoMore(w: Wrapper, events: seq<WrapperEvent>)
    requires w.qlPresented
    ensures WrapperRun(w, events).presents == w.presents
    ensures WrapperRun(w, events).qlPresented
    decreases |events|
  {
    if |events| > 0 {
      PresentedPresentsNoMore(WrapperStep(w, events[0]), events[1..]);
    }
  }

  /** Appearing, completing, then appearing again presents exactly once. */
  lemma PresentOnce()
    ensures WrapperRun(NewWrapper(), [Appeared, Completed, Appeared]).presents == 1
  {
  }

  /** No wrapper event changes the data source. */
  lemma {:induction false} RunKeepsDataSource(w: Wrapper, events: seq<WrapperEvent>)
    ensures WrapperRun(w, events).dataSource == w.dataSource
    decreases |events|
  {
    if |events| > 0 {
      RunKeepsDataSource(WrapperStep(w, events[0]), events[1..]);
    }
  }

  /**
   Whatever updates follow, the controller is served one item, the file the
   wrapper was created with: `updatePreviewItem` reloads, but the coordinator
   still holds the original file.
   */
  lemma DataSourceServesCreationFile(modelFile: Url, events: seq<WrapperEvent>)
    ensures var w := WrapperRun(MakeWrapper(modelFile), events);
      && w.dataSource.Some?
      && NumberOfPreviewItems(w.dataSource.value) == 1
      && ServedItem(w) == Some(modelFile)
  {
    RunKeepsDataSource(MakeWrapper(modelFile), events);
  }

  /**
   An update to a different file is recorded and reloads the controller, yet
   the reloaded controller still shows the file from creation.
   */
  lemma ReloadShowsCreationFile(modelFile: Url, other: Url)
    requires other != modelFile
    ensures var w := UpdatePreviewItem(MakeWrapper(modelFile), other);
      w.currentURL == Some(other) && w.reloads == 1 && ServedItem(w) == Some(modelFile)
  {
  }
}
