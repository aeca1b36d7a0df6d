# Reality Studio 3D file handling, modelled in Dafny

This project models the file-handling core of the Reality Studio 3D iOS app
(the GuidedCapture target): the Scans folder browser, the `.usdz`-only
document picker behind "Simple AR mode", the generic document picker with its
preview-retry loop, and the QuickLook preview wrapper. Each is an immutable
state record with pure transition functions; the file system, the document
picker and QuickLook are oracles or counters, and SwiftUI's delayed blocks are
separate discrete events rather than time.

Modules, one per source concern:

- `Maybe`: Swift optionals.
- `Urls`: URLs as path strings, `lastPathComponent`, `pathExtension`, ASCII
  case mapping and the case-insensitive usdz test.
- `ScansFolder`: `ScansFolderManager`. The stack of visited directories and
  the listing of the top one, over a file-system oracle. The oracle has
  `listings`: listing a path throws unless the path is there. It also has
  `kinds`: the paths that exist, each with its directory flag.
- `BranchedPicker`: `SharedViewModel`, the usdz picker's coordinator and the
  list-row tap.
- `FilePicker`: `FilePickerView` and its `DocumentPicker`. A retry scheduled
  by `onChange` is counted in `pendingRetries`. The delayed block running is
  the event `RetryTimer`.
- `QuickLook`: `ModelView`, `ARQuickLookController.Coordinator` and
  `QLPreviewControllerWrapper`. It counts the `reloadData` and `present` calls.

## Model

| member | source | states |
|---|---|---|
| ScansFolder.ExistingEntries | GuidedCapture/Managers/ScansFolderManager.swift:24-31 | a listed name is kept, with its directory flag, iff its joined path exists; kept names stay in listing order, and all are kept when all exist |
| ScansFolder.ListFiles | GuidedCapture/Managers/ScansFolderManager.swift:21-39 | a readable path replaces `files` and ends up on the stack, which changes iff the path was not on it; the old stack is a prefix and duplicates never appear; an unreadable path changes nothing |
| ScansFolder.RemoveItem | GuidedCapture/Managers/ScansFolderManager.swift:56 | removal fails exactly when nothing is at the path; otherwise only that path stops existing |
| ScansFolder.Init | GuidedCapture/Managers/ScansFolderManager.swift:8-19 | the stack is exactly `[Documents/Scans]` and valid; a missing root is created as an empty readable directory when creation succeeds, and the listing is then empty |
| ScansFolder.GoIntoDirectory | GuidedCapture/Managers/ScansFolderManager.swift:41-44 | the joined child becomes the new top when readable and new; an already-stacked child leaves the stack alone; an unreadable one changes nothing |
| ScansFolder.GoUp | GuidedCapture/Managers/ScansFolderManager.swift:46-51 | with one path nothing changes; otherwise exactly the last path is removed and not re-appended, and the new top is relisted if readable |
| ScansFolder.DeleteFile | GuidedCapture/Managers/ScansFolderManager.swift:53-61 | the stack never changes; a failed removal changes nothing; a successful one relists the top, and the deleted name is no longer listed |
| ScansFolder.StepPreservesValid | GuidedCapture/Managers/ScansFolderManager.swift:41-60 | every folder-view action keeps the stack non-empty, rooted at the Scans root and free of duplicates |
| ScansFolder.Run | GuidedCapture/Managers/ScansFolderManager.swift:47-49 | however many actions run, the stack is never empty, so `currentPath.last!` never fails |
| ScansFolder.RunPreservesValid | GuidedCapture/Managers/ScansFolderManager.swift:33-50 | any sequence of actions preserves the stack invariant |
| ScansFolder.SessionKeepsStackValid | GuidedCapture/Managers/ScansFolderManager.swift:12-50 | from start-up on, whatever the file system answers, the stack starts at the root, is non-empty and repeats no path |
| ScansFolder.GoUpAtRootIsNoOp | GuidedCapture/Managers/ScansFolderManager.swift:47 | going up right after start-up changes neither the stack nor the listing |
| ScansFolder.GoIntoThenUpRestoresStack | GuidedCapture/Managers/ScansFolderManager.swift:41-50 | entering a new readable child and going up restores the stack |
| Urls.LastPathComponent | GuidedCapture/Views/BranchedFilePickerView.swift:27 | the result is the slash-free tail of the URL: right after a '/' when shorter than the URL, the whole URL when it has no slash |
| Urls.PathExtension | GuidedCapture/Views/BranchedFilePickerView.swift:28 | the extension is a dot- and slash-free tail of the URL, right after a dot when non-empty; when a dot follows the last '/', it is everything after the last dot |
| Urls.ExtensionFollowsLastDot | GuidedCapture/Views/BranchedFilePickerView.swift:28 | when the last path component holds a dot the extension is what follows its last dot; when it holds none the extension is empty |
| Urls.UsdzIffSuffix | GuidedCapture/Views/BranchedFilePickerView.swift:79 | a URL passes the usdz test iff it ends in a dot and "usdz" in any case |
| Urls.UsdzTestIgnoresCase | GuidedCapture/Views/BranchedFilePickerView.swift:79 | upper- or lower-casing a URL never changes the verdict |
| Urls.UpperCaseUsdzAccepted | GuidedCapture/Views/BranchedFilePickerView.swift:28 | "MODEL.USDZ" passes the usdz test |
| Urls.MixedCaseUsdzAccepted | GuidedCapture/Views/BranchedFilePickerView.swift:28 | "/Documents/Chair.UsDz" passes the usdz test |
| Urls.NearMissRejected | GuidedCapture/Views/BranchedFilePickerView.swift:28 | "scene.usd" fails the usdz test |
| Urls.BareNameRejected | GuidedCapture/Views/BranchedFilePickerView.swift:28 | a name "usdz" with no extension fails |
| Urls.UsdzDirectoryRejected | GuidedCapture/Views/BranchedFilePickerView.swift:28 | a file inside "models.usdz/" fails: only the last component's extension counts |
| BranchedPicker.Filter | GuidedCapture/Views/BranchedFilePickerView.swift:79 | the filter keeps exactly the passing URLs; it keeps all of them iff all pass, and then returns the input itself |
| BranchedPicker.RaiseUnsupported | GuidedCapture/Views/BranchedFilePickerView.swift:81-82 | the alert is shown with "Only .usdz files are supported." and the selection and AR flag are untouched |
| BranchedPicker.DidPickDocuments | GuidedCapture/Views/BranchedFilePickerView.swift:76-87 | a non-empty all-usdz batch replaces the listed documents with exactly that batch, in order; any other batch, empty included, keeps them and raises the alert |
| BranchedPicker.SelectRow | GuidedCapture/Views/BranchedFilePickerView.swift:26-35 | a usdz row selects its URL and opens the AR view with the alert untouched; any other row raises the alert and keeps selection and AR flag |
| BranchedPicker.EmptyBatchRejected | GuidedCapture/Views/BranchedFilePickerView.swift:80 | an empty batch is rejected with the alert |
| BranchedPicker.UpperCaseBatchAccepted | GuidedCapture/Views/BranchedFilePickerView.swift:79-84 | a batch `["MODEL.USDZ"]` is listed as it is |
| BranchedPicker.MixedBatchRejected | GuidedCapture/Views/BranchedFilePickerView.swift:80-82 | one non-usdz file rejects the whole batch, its usdz files included |
| BranchedPicker.AcceptedRowsOpenArView | GuidedCapture/Views/BranchedFilePickerView.swift:28-30 | every row of an accepted batch opens the AR view on its own URL without an alert |
| FilePicker.Settle | GuidedCapture/Views/FilePickerView.swift:44-52 | the `onChange` handler adds a pending retry iff the flag fell from true to false under the guard, and changes nothing else |
| FilePicker.PickDocuments | GuidedCapture/Views/FilePickerView.swift:93-97 | the picked URLs replace the list unfiltered; nothing else changes |
| FilePicker.SelectFile | GuidedCapture/Views/FilePickerView.swift:55-60 | selection, zero retries, sheet shown and active; no retry is scheduled |
| FilePicker.CleanupAfterDismiss | GuidedCapture/Views/FilePickerView.swift:62-68 | sheet hidden, no selection, zero retries, inactive, and the retry guard is false |
| FilePicker.EndCapture | GuidedCapture/Views/FilePickerView.swift:35-39 | the preview's end callback ends in the cleaned-up state, inactive |
| FilePicker.SheetClosed | GuidedCapture/Views/FilePickerView.swift:31-33 | closing the sheet schedules a retry iff it was shown and the guard holds |
| FilePicker.RetryFires | GuidedCapture/Views/FilePickerView.swift:47-50 | a fired retry adds exactly one to the count and re-shows the sheet, without checking any guard |
| FilePicker.CleanupIdempotent | GuidedCapture/Views/FilePickerView.swift:62-68 | cleaning up twice equals cleaning up once |
| FilePicker.RetryScheduledOnlyUnderGuard | GuidedCapture/Views/FilePickerView.swift:44-52 | an event schedules a retry iff it is the sheet closing while shown, with a file selected, fewer than 10 retries and active; at most one per event |
| FilePicker.StepKeepsRetriesBounded | GuidedCapture/Views/FilePickerView.swift:45-50 | at most one pending retry, none while shown, and count plus pending at most 10: every event except a mid-retry re-selection keeps this |
| FilePicker.RunKeepsRetriesBounded | GuidedCapture/Views/FilePickerView.swift:45-50 | the retry bound holds along any run without a mid-retry re-selection |
| FilePicker.RetryCountBounded | GuidedCapture/Views/FilePickerView.swift:11 | from a fresh view, `retryCount` never exceeds `maxRetryCount` = 10 |
| FilePicker.TwoRetriesCanBePending | GuidedCapture/Views/FilePickerView.swift:55-60 | selecting again within the delay leaves two retries pending |
| FilePicker.InactiveSchedulesNothing | GuidedCapture/Views/FilePickerView.swift:45 | while inactive and until a file is selected, no retry is scheduled and the view stays inactive |
| FilePicker.DismissStopsRetries | GuidedCapture/Views/ModelView.swift:65-66 | after the preview's dismissal or a cleanup, no new retry is scheduled until a file is selected |
| FilePicker.LateRetryOpensEmptySheet | GuidedCapture/Views/FilePickerView.swift:34-42 | a retry pending at cleanup still fires, re-showing the sheet with no file, the empty-view branch |
| FilePicker.GenericPickerListsWhatUsdzPickerRejects | GuidedCapture/Views/FilePickerView.swift:93-95 | the generic picker lists "notes.txt", which the usdz picker rejects |
| QuickLook.ModelViewStep | GuidedCapture/Views/ModelView.swift:22-26 | no event sets `isLoading` back to true |
| QuickLook.LoadingOnlyClears | GuidedCapture/Views/ModelView.swift:8-26 | over any events `isLoading` only goes from true to false; a shown preview stays shown |
| QuickLook.AppearThenDelayShowsPreview | GuidedCapture/Views/ModelView.swift:13-26 | a new view shows the spinner; appearing and the delay bring the preview |
| QuickLook.Prepare | GuidedCapture/Views/ModelView.swift:76-80 | the URL the wrapper last recorded becomes the model file and the coordinator becomes the data source; nothing is reloaded or presented |
| QuickLook.UpdatePreviewItem | GuidedCapture/Views/ModelView.swift:82-87 | the same URL as the one last recorded changes nothing; a different URL reloads once and is recorded; the data source is never touched |
| QuickLook.ViewDidAppear | GuidedCapture/Views/ModelView.swift:89-96 | an appearance presents iff no presentation has completed |
| QuickLook.PresentCompleted | GuidedCapture/Views/ModelView.swift:92-94 | the completion marks the controller presented |
| QuickLook.UpdateIdempotent | GuidedCapture/Views/ModelView.swift:82-87 | applying the same update twice equals applying it once |
| QuickLook.FirstUpdateReloadsNothing | GuidedCapture/Views/ModelView.swift:36-44 | the first update after creation passes the same file and reloads nothing |
| QuickLook.ReloadsCountChanges | GuidedCapture/Views/ModelView.swift:82-87 | a run of updates reloads once per change of URL and ends on the last URL |
| QuickLook.RepeatedUpdateReloadsOnce | GuidedCapture/Views/ModelView.swift:82-87 | repeating one URL n times reloads once when n > 0 and it differs from the recorded URL, and not at all otherwise |
| QuickLook.PresentedPresentsNoMore | GuidedCapture/Views/ModelView.swift:91-95 | once presented, no later appearance or update presents again |
| QuickLook.PresentOnce | GuidedCapture/Views/ModelView.swift:89-96 | appear, complete, appear presents exactly once |
| QuickLook.RunKeepsDataSource | GuidedCapture/Views/ModelView.swift:42-44 | no appearance, completion or update changes the data source the wrapper was prepared with |
| QuickLook.DataSourceServesCreationFile | GuidedCapture/Views/ModelView.swift:36-62 | after any run of events, the controller is served exactly one item: the file the view was created with |
| QuickLook.ReloadShowsCreationFile | GuidedCapture/Views/ModelView.swift:42-62 | an update to a different file is recorded and reloads once, yet the reload still serves the creation file |

## Left out

- Real `FileManager`, `NSSearchPathForDirectoriesInDomains` and
  `appendingPathComponent` behaviour. The file system is the oracle above, and
  `Join` simply adds "/" and the name, with no normalisation. A failed
  directory creation is an input flag. `removeItem` fails only when nothing is
  at the path. Removing a directory does not remove its descendants.
- `Urls.PathExtension` follows the plain "after the last dot of the last
  component" rule. Foundation's handling of trailing slashes, hidden files
  with a leading dot and percent-encoding is not modelled. `lowercased()` is
  ASCII-only here.
- FilePicker.RetryCountBounded: the bound is proved only for runs that do not
  select a file again while a retry is pending. The source schedules retries
  with `asyncAfter` blocks that cannot be cancelled and do not recheck the
  guard. So re-selecting within the one-second delay can stack retries
  (`FilePicker.TwoRetriesCanBePending`), and then the count is not bounded.
- The exact order in which SwiftUI runs `onChange` and `onDismiss` for one
  dismissal is not modelled. Both are separate events, and any order is
  allowed.
- `showDocumentPicker`, sheets, alerts, navigation, logging and the
  `print` calls are presentation only.
- SwiftUI keeps the coordinator made by `makeCoordinator` for the view's
  lifetime, and `updateUIViewController` never refreshes its `parent`. The
  model therefore keeps the coordinator's file fixed, and after an update to
  a new file the reload still serves the old one
  (`QuickLook.ReloadShowsCreationFile`). SwiftUI's re-creation of the view
  struct itself is not modelled.
- The QuickLook controller's own behaviour (`reloadData`, `present`) is
  represented only by the `reloads` and `presents` counters.
- `SimpleCameraAR.swift` (ARKit session configuration, plane-node geometry
  in floating point), `FirstMenuView.swift` (navigation) and
  `FoldersView.swift` (UI over the folder manager; its "Go Up" visibility
  repeats the `goUp` guard). The call `SimpleCameraAr(modelURL:)` in
  `BranchedFilePickerView.swift` does not match the parameterless
  declaration, so AR navigation is modelled only as the `isARViewActive`
  flag.
