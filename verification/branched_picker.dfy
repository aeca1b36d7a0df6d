/**
 The "Simple AR" entry: a document picker that only takes `.usdz` files, and a
 list of picked files whose rows open the AR view for a usdz file and raise an
 alert otherwise. The view model is the shared `SharedViewModel`.
 */
module BranchedPicker {
  import opened Maybe
  import opened Urls

  datatype SharedViewModel = SharedViewModel(
    selectedModelURL: Option<Url>,
    isARViewActive: bool,
    showAlert: bool,
    alertMessage: string)

  /** The view's own state: the shared model and the picked documents listed as rows. */
  datatype PickerView = PickerView(viewModel: SharedViewModel, pickedDocuments: seq<Url>)

  const UnsupportedMessage := "Only .usdz files are supported."

  /** A batch the picker takes: at least one URL, and every URL a usdz file. */
  ghost predicate AcceptableBatch(urls: seq<Url>)
  {
    |urls| > 0 && forall k :: 0 <= k < |urls| ==> IsUsdz(urls[k])
  }

  /** `urls.filter(keep)`: the URLs that pass, in their original order. */
  function Filter(urls: seq<Url>, keep: Url -> bool): (r: seq<Url>)
    ensures |r| <= |urls|
    ensures forall u :: u in r <==> u in urls && keep(u)
    ensures |r| == |urls| <==> forall k :: 0 <= k < |urls| ==> keep(urls[k])
    ensures |r| == |urls| ==> r == urls
  {
    if |urls| == 0 then []
    else
      var rest := Filter(urls[1..], keep);
      assert forall u :: u in urls <==> u == urls[0] || u in urls[1..];
      assert forall k :: 1 <= k < |urls| ==> urls[k] == urls[1..][k - 1];
      if keep(urls[0]) then
        assert urls == [urls[0]] + urls[1..];
        [urls[0]] + rest
      else
        rest
  }

  /** The alert both the picker and the rows raise for a file that is not usdz. */
  function RaiseUnsupported(vm: SharedViewModel): (r: SharedViewModel)
    ensures r.showAlert && r.alertMessage == UnsupportedMessage
    ensures r.selectedModelURL == vm.selectedModelURL && r.isARViewActive == vm.isARViewActive
  {
    vm.(alertMessage := UnsupportedMessage, showAlert := true)
  }

  /**
   `Coordinator.documentPicker(_:didPickDocumentsAt:)`: the batch replaces the
   listed documents when it is non-empty and all usdz; otherwise the listed
   documents stay and the unsupported-file alert is raised.
   */
  function DidPickDocuments(v: PickerView, urls: seq<Url>): (r: PickerView)
    ensures AcceptableBatch(urls) ==> r == v.(pickedDocuments := urls)
    ensures !AcceptableBatch(urls) ==>
      r == PickerView(RaiseUnsupported(v.viewModel), v.pickedDocuments)
  {
    var filtered := Filter(urls, IsUsdz);
    if |filtered| == 0 || |urls| != |filtered| then
      PickerView(RaiseUnsupported(v.viewModel), v.pickedDocuments)
    else
      v.(pickedDocuments := filtered)
  }

  /**
   Tapping a listed row: a usdz file becomes the selected model and opens the
   AR view, leaving the alert alone; any other file raises the alert and leaves
   the selection and the AR view alone.
   */
  function SelectRow(vm: SharedViewModel, url: Url): (r: SharedViewModel)
    ensures IsUsdz(url) ==> r.selectedModelURL == Some(url) && r.isARViewActive
    ensures IsUsdz(url) ==> r.showAlert == vm.showAlert && r.alertMessage == vm.alertMessage
    ensures !IsUsdz(url) ==> r == RaiseUnsupported(vm)
  {
    if IsUsdz(url) then
      vm.(selectedModelURL := Some(url), isARViewActive := true)
    else
      RaiseUnsupported(vm)
  }

  /** A rejected batch, even an empty one, never touches the listed documents. */
  lemma EmptyBatchRejected(v: PickerView)
    ensures DidPickDocuments(v, []).pickedDocuments == v.pickedDocuments
    ensures DidPickDocuments(v, []).viewModel.showAlert
  {
  }

  /** An all-capitals usdz name is taken as it is. */
  lemma UpperCaseBatchAccepted(v: PickerView)
    ensures DidPickDocuments(v, ["MODEL.USDZ"]).pickedDocuments == ["MODEL.USDZ"]
  {
    UpperCaseUsdzAccepted();
  }

  /** One bad file spoils the batch: nothing from it is listed. */
  lemma MixedBatchRejected(v: PickerView, good: Url, bad: Url)
    requires IsUsdz(good) && !IsUsdz(bad)
    ensures DidPickDocuments(v, [good, bad]).pickedDocuments == v.pickedDocuments
    ensures DidPickDocuments(v, [good, bad]).viewModel.alertMessage == UnsupportedMessage
  {
    assert !AcceptableBatch([good, bad]) by { assert !IsUsdz([good, bad][1]); }
  }

  /**
   After an accepted batch every listed row opens the AR view on that row's
   file and none raises the alert: the row check never fires for what the
   picker let through.
   */
  lemma AcceptedRowsOpenArView(v: PickerView, urls: seq<Url>, k: nat)
    requires |urls| > 0 && forall j :: 0 <= j < |urls| ==> IsUsdz(urls[j])
    requires k < |DidPickDocuments(v, urls).pickedDocuments|
    ensures var listed := DidPickDocuments(v, urls).pickedDocuments;
      var r := SelectRow(v.viewModel, listed[k]);
      r.selectedModelURL == Some(urls[k]) && r.isARViewActive && r.showAlert == v.viewModel.showAlert
  {
  }
}
