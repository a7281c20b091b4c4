# GreebleFS: verified model of its client protocols

This project models the client-side protocols and data transformations of GreebleFS and proves what
they keep over whole runs. The code is single-threaded JavaScript, so one stretch between two awaits is
one step, and any other step may come in between. Each protocol is a state machine whose steps are pure
functions; the refs and state variables the source updates in place are a class whose methods are proved
to perform exactly those steps; the theorems are about all event sequences.

| file | what it models |
|---|---|
| `Listing.dfy` | the paged directory listing of the mobile explorer, client and host |
| `CatalogRefresh.dfy` | the coalesced refresh of the icon-theme catalog with its signature cache |
| `Presentation.dfy` | the window presentation flows, their generation counter and mode |
| `PluginRuntime.dfy` | mounting and disposing plugin renderers |
| `Transfers.dfy` | the upload and download transfers and their cancellation map |
| `PathMemory.dfy` | pinned and recent folders, with local storage |
| `Panels.dfy` | open, active and dismissed layout panels |
| `StartupQueue.dfy` | the idle-time startup queue |
| `Location.dfy`, `RelativePath.dfy`, `Encoding.dfy` | the address-bar query, file URLs and parents, UTF-8 and percent-encoding |
| `Base64Url.dfy` | decoding the push server's key |
| `Template.dfy` | filling plugin-action placeholders |
| `GridLayout.dfy` | grid columns and rows |
| `Text.dfy`, `DistinctLists.dfy`, `Options.dfy` | string, list and option helpers |

Where a property does not hold of the code in every run, the condition under which it does is proved to be
exact (but for the one case named under Templates), and a lemma shows what happens without it:

- Listing: three laws (pages come in order, the loading flags are truthful, paging never stalls) each hold
  throughout a run exactly when every step of it is allowed (`LawsHoldExactly`). For order: no folder is opened
  over its own unsettled requests, and no call with old arguments asks for a page of the active folder other
  than the frontier page of an incomplete listing. For truthful flags and progress: no request for another
  folder raises a flag. For progress: the active folder's page 0 does not fail. What happens otherwise:
  `StaleAnswerLeavesHole`, `StaleLoadLeavesHole`, `ForeignScrollSticksExactly`, `FailedFirstPageStalls`. The
  listed folder is the displayed one exactly when no refresh comes from a folder that was left
  (`ListsWhatItShowsExactly`); an upload that settles late sends such a refresh
  (`LateRefreshListsLeftFolder`).
- Catalog refresh: the signature sees only the paths and times of top-level entries, while a discovery reads
  files inside the packages. In runs without failures, iterations that are forced or see a non-empty signature
  show their directory exactly when directory states with the same non-empty signature discover alike
  (`CacheInvisibleExactly`), and all iterations do exactly when, besides, what lists empty discovers nothing
  (`EveryIterationShowsExactly`). Otherwise an edit inside a package is not seen (`EditInPlaceIsNotSeen`), an
  empty directory may never be discovered, and a failure outlives its cause (`SkipVisible`). For one skip, on
  any disk and with failures, `SkipInvisibleExactly`.
- Presentation: commands fit the window mode in all runs exactly off the Wayland dock (`ModeSafeExactly`).
- Plugin runtime: mount, update and dispose are called in order throughout a run exactly when no step touches
  an instance whose dispose call threw during a teardown (`OrderedExactly`): the next setup disposes it again,
  and a change of the context before that updates it (`SetupDisposesAgain`, `UpdateAfterDispose`).
- Transfers: a retry is sound exactly when the transfer is not running (`RetryKeepsSoundExactly`); the row
  offers it only then.
- Path memory: normalising is not idempotent on paths such as `/ a`. Cutting on every step gives the list cut
  once exactly for recorded paths that normalising twice leaves as normalising once does
  (`CutEachStepExactly`); reloading restores the lists exactly for paths whose normal form is such a path
  (`ReloadRestoresExactly`), so `/ a` is restored and `/ / a` is not (`NotRestored`). Both assume that the lists
  are canonical at the start (bounded, distinct, each path its own normal form); storage the app wrote for paths
  such as `/ / / / a` reads back otherwise (`StartNotCanonical`). From any start `ReloadFromAnyExactly` holds.
- Templates: one `replaceAll` after another is a simultaneous substitution under conditions that are exact
  for templates (`TemplateExactly`), for the values of a rule list whose values have no `{` (`ValuesExactly`),
  for one value, whatever it is, among harmless values (`ValueExactly`), and for the current path of a plugin
  pane, which is the value of three rules (`PanePathExactly`). For several unrelated values with `{` at once
  the condition of `SequentialIsSimultaneous` is sufficient, and its converse is not claimed: a value may hold a
  later token and still be right, because later values can put back what was replaced (`UnsafeYetRight`).

Assumptions about what lies outside: a promise settles once; no progress event follows an upload's
settlement; aborting an upload settles its promise before the next event; new identifiers are fresh
(counters); JSON text stands for the value it was written from, so a listing key is a string that identifies
folder and options; a `char` is a Unicode scalar value (no lone surrogates).

## Model

| member | source | states |
|---|---|---|
| Listing.ServerPage | src-tauri/src/lan_share/mobile.rs:1282-1317 | a page is the slice of the listing at the requested offset; the next offset is its end, after a full page, or missing when the listing ends there; an offset inside the listing yields at least one entry |
| Listing.PageKeyInjective | src-mobile/App.tsx:1521-1522 | two page requests share a key only if their listing key and offset agree |
| Listing.MergePage | src-mobile/App.tsx:1551-1562 | the copy-or-resize and the write loop give the sparse array in which exactly the page's slots changed |
| Listing.ListingClient.ResetListingState | src-mobile/App.tsx:1506-1518 | performs the reset step on the refs and state |
| Listing.ListingClient.StartPage | src-mobile/App.tsx:1520-1532 | marks the page and sets a loading flag, or does nothing when the page was already marked; tells whether a request leaves |
| Listing.ListingClient.PageArrived | src-mobile/App.tsx:1541-1563 | an answer for another folder changes nothing; otherwise the page is merged and the flags are cleared |
| Listing.ListingClient.PageFailed | src-mobile/App.tsx:1564-1578 | the page can be asked for again; the error shows only for the active folder |
| Listing.ListingClient.HandleScroll | src-mobile/App.tsx:1846-1857 | asks for the next page exactly near the bottom, with a next offset, while none is loading, and if not yet marked |
| Listing.AlwaysAgrees | src-mobile/App.tsx:1506-1579 | in every interleaving, the entries are empty or as long as the active listing, and every filled slot equals the listing's entry |
| Listing.OtherFolderIsInvisible | src-mobile/App.tsx:1541-1577 | settlement of a request for a folder that is not active changes nothing visible and frees no page of the active folder |
| Listing.CountIsLength | src-mobile/App.tsx:1549-1562 | in every run the announced count is the length of the sparse array, so 0 or the listing's length |
| Listing.ActiveSettlementShows | src-mobile/App.tsx:1541-1577 | an answer for the active folder puts its page in place, shows the true count, no error and the next offset; an error shows itself, keeps what was shown and lets the page be asked for again; both clear the loading flags |
| Listing.ErrorShownExactly | src-mobile/App.tsx:1563-1572 | in every run an error shows exactly when, of openings and settlements for the active folder, the last one was an error |
| Listing.OpeningClears | src-mobile/App.tsx:1506-1518 | opening clears entries, count, next offset, error and marks, and sends one request for page 0 |
| Listing.ScrollSendsExactly | src-mobile/App.tsx:1846-1857 | a scroll near the bottom sends the next page's request exactly while there is one, none is loading and it is not marked |
| Listing.CommitAndEffect | src-mobile/App.tsx:1890-1893 | a render of another folder displays it and its effect opens it; a render of the same one changes nothing |
| Listing.LawsHoldExactly | src-mobile/App.tsx:1520-1579 | for every run (for progress: one that opens a folder first, as the app does) and each of three laws (pages in order: only the frontier page in flight, at most once, everything before it filled, no frontier after the first answer means no hole; truthful loading flags; progress): the law holds after every step exactly when every step is one it allows |
| Listing.AlwaysLawful | src-mobile/App.tsx:1506-1579 | after a run of allowed steps the law holds |
| Listing.NeverStalls | src-mobile/App.tsx:1846-1857 | after such a run the listing is complete, or its next page (page 0 before the first answer) is in flight or put in flight by a scroll |
| Listing.StepKeepsOrderExactly | src-mobile/App.tsx:1506-1579 | a step keeps the order exactly when it opens no folder over its own requests and makes no harmful call with old arguments |
| Listing.StaleLoadKeepsOrderExactly | src-mobile/App.tsx:1520-1532 | a call with the arguments of any earlier render keeps the order exactly when it is for another folder, returns at once on a marked page, or asks for the frontier page of a listing that is not complete |
| Listing.OpenKeepsOrderExactly | src-mobile/App.tsx:1606-1609 | opening a folder establishes that order exactly when no request for it is in flight |
| Listing.StaleAnswerLeavesHole | src-mobile/App.tsx:1606-1609 | for every folder of more than one page, refreshing it with its second page in flight leads to an empty slot 0 behind a next offset that has moved on |
| Listing.StaleLoadLeavesHole | src-mobile/App.tsx:1846-1857 | for every such folder, a scroll handled with the old offset just after a refresh leads to an empty slot 0, and once page 0 has come, to a next offset that no scroll asks for any more |
| Listing.StepKeepsFlagsExactly | src-mobile/App.tsx:1527-1577 | a clean step keeps the loading flags truthful (listing flag exactly while page 0 is in flight, load-more flag only while something is) exactly when it sends no request for another folder that raises a flag with nothing behind it |
| Listing.StepKeepsMovingExactly | src-mobile/App.tsx:1564-1577 | a clean step keeps progress (before the first answer and while there is a next offset, the frontier page is in flight or a scroll puts it in flight) exactly when it does not raise the load-more flag for another folder while the listing waits for a scroll, and is not the failure of the active folder's page 0 |
| Listing.FailedFirstPageStalls | src-mobile/App.tsx:1564-1577 | for every folder, when page 0 fails nothing is shown or in flight and no scroll asks for anything; opening the folder again does |
| Listing.ForeignScrollSticksExactly | src-mobile/App.tsx:1564-1577 | after a scroll for another folder has settled, by an answer or an error, the load-more flag is up with nothing in flight exactly when the scroll led to a request |
| Listing.VisitLoads | src-mobile/App.tsx:1520-1579 | from any state without requests for the folder, r scroll rounds after opening give exactly the first 160(r+1) entries, in place, and the right next offset |
| Listing.ListsWhatItShowsExactly | src-mobile/App.tsx:1606-1609 | in every run the folder that is listed is the displayed one, once its effect has run, exactly when each refresh is for the displayed folder or comes before that effect |
| Listing.ScreenAgrees | src-mobile/App.tsx:1890-1893 | in such runs every entry shown is the displayed folder's |
| Listing.LateRefreshListsLeftFolder | src-mobile/App.tsx:1749 | from any settled screen, the refresh an upload makes for a folder that was left puts that folder's first page on the screen, and no effect corrects it |
| CatalogRefresh.RefreshRefs.Refresh | src/App.tsx:4219-4236 | a caller either leaves a note for the runner or starts the loop, with the force flag folded in |
| CatalogRefresh.RefreshRefs.IterationHead | src/App.tsx:4229-4236 | an iteration consumes the queued flag and, if forced, forgets the signature |
| CatalogRefresh.RefreshRefs.ListingArrived | src/App.tsx:4242-4252 | skips exactly on an unforced equal signature, else records the new one |
| CatalogRefresh.RefreshRefs.LoopAgain | src/App.tsx:4264-4267 | goes round again exactly when a request is queued, else clears the in-flight flag |
| CatalogRefresh.AlwaysCoalesced | src/App.tsx:4219-4267 | the protocol invariant holds in every run, errors included |
| CatalogRefresh.NoLostRequest | src/App.tsx:4219-4267 | at most one runner; when idle, every request was followed by an iteration, and a forced or joining one by an iteration that ignores the signature; a run of the loop has at most one iteration more than requests arriving during it |
| CatalogRefresh.LogTells | src/App.tsx:4219-4267 | what that is said about is what happened: a request is noted with whether the loop ran, an iteration when a runner begins to list with whether it is forced, the end when no runner is left |
| CatalogRefresh.CatalogIsLastShown | src/App.tsx:4240-4262 | in every run the catalog is empty at first and after an error in a listing or a discovery, the built-in packages after a discovery that could not list, and else the last discovery |
| CatalogRefresh.SignatureChanges | src/App.tsx:4234-4252 | the signature is forgotten exactly when a forced iteration begins, and otherwise changes only to that of a listing that is not skipped |
| CatalogRefresh.AlwaysCached | src/App.tsx:4234-4262 | on any disk, with the directory stable within iterations, the catalog is the discovery of the last directory discovered, or the built-in packages when discovery could not list it, or empty at first and after an error; and the signature belongs to it |
| CatalogRefresh.SkipInvisibleExactly | src/App.tsx:4248-4262 | on any disk a discovery shows its directory; what is shown at a skip was discovered under the same signature or is what a failure left, and the skip shows the directory exactly when the directory would show that |
| CatalogRefresh.DiscoveryShowsDirectory | src/App.tsx:4234-4256 | on any disk and after any failures, an iteration that does not skip leaves the catalog at the discovery of its directory, and a forced one never skips |
| CatalogRefresh.IterationShowsDirectory | src/App.tsx:4240-4256 | when nothing failed and equal non-empty signatures mean equal discoveries, an iteration that is forced or sees a non-empty signature leaves the catalog at the discovery of its directory |
| CatalogRefresh.CacheInvisibleExactly | src/App.tsx:4240-4256 | all such iterations of all runs show their directory exactly when directory states with the same non-empty signature discover alike |
| CatalogRefresh.EveryIterationShowsExactly | src/App.tsx:4240-4256 | all iterations of all runs without failures do exactly when, besides, a directory with the empty signature discovers nothing |
| CatalogRefresh.EditInPlaceIsNotSeen | src/App.tsx:4242-4250 | whenever two directory states have the same signature, an unforced iteration after a change from one to the other keeps the old discovery |
| CatalogRefresh.SkipVisible | src/App.tsx:4248-4261 | an empty directory asked for without force is never discovered, and what an error or a failed listing leaves is kept though the directory is unchanged |
| Presentation.PresentationRefs.BeginApply | src/App.tsx:2015-2018 | the generation grows by one and is returned; the mode stays |
| Presentation.PresentationRefs.RequestMode | src/App.tsx:3332-3333 | the generation grows and the mode is the requested one |
| Presentation.PresentationRefs.ApplyIsCurrent | src/App.tsx:2019-2030 | current means: same generation, and the expected mode or an overlay apply on the Wayland dock |
| Presentation.OvertakenIsSilent | src/App.tsx:2878-3055 | a guarded flow whose generation is not the current one issues no command at any stage |
| Presentation.NotCurrentEnds | src/App.tsx:2941-3204 | a flow that is not current after measuring, asking or applying, by generation or by mode, ends without a command |
| Presentation.BeginEffects | src/App.tsx:3583-3593 | showing the dock, showing the window and synchronising begin under their guards, raise the generation by one and hold the new one; re-anchoring and the listeners do not raise it |
| Presentation.SupersededIsSilent | src/App.tsx:2015-2030 | over every run, once showing the dock, showing the window or synchronising has begun or the mode was changed, no flow that began earlier issues a command again, listeners excepted |
| Presentation.OtherEffects | src/App.tsx:3332-3333 | a mode request raises the generation and sets the mode, a render only follows the mode, a cleanup only cancels |
| Presentation.ResumeEffects | src/App.tsx:2878-2911 | a resumption issues at most one command, under the mode of the moment and the flow's generation, and moves no other flow |
| Presentation.FailureEndsFlow | src/App.tsx:2920-3204 | without a monitor or after a throw a flow ends without a command; so do a cancelled re-anchoring and listeners when nothing is visible or the dock floats |
| Presentation.StepAppends | src/App.tsx:2878-3204 | every step adds either a bump to the next generation or a command that is current and fits the mode |
| Presentation.OlderFlowsStaySilent | src/App.tsx:2015-2030 | over every run, after a newer apply begins or the mode is changed no older guarded flow issues a geometry command; generations grow strictly |
| Presentation.CommandsFitMode | src/App.tsx:2841-2917 | over every run on any host, only dock geometry of the Wayland dock can miss the window mode |
| Presentation.ModeSafeExactly | src/App.tsx:2026-2029 | dock geometry only in overlay mode and window geometry only in windowed mode, in all runs, exactly on hosts other than the Wayland dock |
| Presentation.UndisturbedPlacesWindow | src/App.tsx:2920-3204 | a flow that stays current issues exactly its geometry commands: the dock once or twice, the regular window and its maximization |
| PluginRuntime.ResolveMount | src-mobile/mobilePluginRuntime.tsx:125-142 | finds no mount exactly when none of the three exports is one; the named export comes first, then a default function, then the default export's mount |
| PluginRuntime.RuntimeSurface.DisposeAndClear | src-mobile/mobilePluginRuntime.tsx:283-284 | disposes the current instance if it can be disposed and clears the ref unless the call throws |
| PluginRuntime.RuntimeSurface.RunEffect | src-mobile/mobilePluginRuntime.tsx:240-247 | the effect's first stretch: status, disposal of what is left, start of loading |
| PluginRuntime.RuntimeSurface.CleanUp | src-mobile/mobilePluginRuntime.tsx:281-287 | the cleanup marks the effect disposed and disposes the instance |
| PluginRuntime.RuntimeSurface.ModuleLoaded | src-mobile/mobilePluginRuntime.tsx:250-258 | a disposed effect does not mount; a module without mount is an error |
| PluginRuntime.RuntimeSurface.MountReturned | src-mobile/mobilePluginRuntime.tsx:259-267 | the instance is disposed at once if the effect is disposed, else kept with status ready |
| PluginRuntime.RuntimeSurface.Fail | src-mobile/mobilePluginRuntime.tsx:268-276 | an error shows only while the effect is not disposed |
| PluginRuntime.StepKeepsSoundExactly | src-mobile/mobilePluginRuntime.tsx:218-288 | a step keeps the order of calls, and all of the invariant, exactly when it is neither a setup nor an update that reaches an instance left over from a throwing teardown |
| PluginRuntime.OrderedExactly | src-mobile/mobilePluginRuntime.tsx:218-288 | in every run, no mount follows its effect's teardown, no update a disposal, and every disposal comes after the teardown and only once, throughout, exactly when every step is of that kind |
| PluginRuntime.AlwaysSound | src-mobile/mobilePluginRuntime.tsx:223-288 | in such runs instance ref and status belong to the live effect (or the ref holds a left-over instance), the status tells its stage, and the disposed instances are exactly those of torn-down effects |
| PluginRuntime.QuietRunsAreSteady | src-mobile/mobilePluginRuntime.tsx:281-287 | runs whose teardowns do not throw are such runs, and leave no instance over |
| PluginRuntime.EachInstanceDisposedOnce | src-mobile/mobilePluginRuntime.tsx:260-287 | in such runs every disposable instance is disposed at exactly one moment, after its effect's teardown, or not at all while the effect lives |
| PluginRuntime.ReturnedIsDisposedExactly | src-mobile/mobilePluginRuntime.tsx:144-160 | what a mount call returned is disposed, once and after the teardown of its effect, exactly when it was a function or an object with `dispose` |
| PluginRuntime.ReturnedIsUpdatedExactly | src-mobile/mobilePluginRuntime.tsx:218-221 | while its effect lives it is in the ref with status ready, and a change of the context calls `update` exactly when it was an object that has one |
| PluginRuntime.FailuresShow | src-mobile/mobilePluginRuntime.tsx:254-276 | a module without mount, a module that does not load and a mount that throws end in status error without an instance; mount is called only in the last case |
| PluginRuntime.TeardownEnds | src-mobile/mobilePluginRuntime.tsx:281-287 | a teardown disposes the instance and clears the ref, and nothing the effect's promises bring later shows |
| PluginRuntime.NothingAfterTheEnd | src-mobile/mobilePluginRuntime.tsx:218-253 | no mount call after the effect's teardown and no update after an instance's disposal |
| PluginRuntime.UndisturbedMounts | src-mobile/mobilePluginRuntime.tsx:240-267 | an undisturbed effect ends with mount's instance in the ref and status ready |
| PluginRuntime.TeardownMustNotThrow | src-mobile/mobilePluginRuntime.tsx:218-287 | after the teardown of an effect with a disposable instance, a setup keeps the order exactly when dispose did not throw, and so does a change of the context if the instance has `update` |
| PluginRuntime.SetupDisposesAgain | src-mobile/mobilePluginRuntime.tsx:240-247 | a setup that finds a left-over instance breaks the order |
| PluginRuntime.UpdateAfterDispose | src-mobile/mobilePluginRuntime.tsx:218-221 | a change of the context that finds a left-over instance with `update` breaks the order |
| Transfers.TransferStore.BeginUploadTransfer | src-mobile/App.tsx:1687-1760 | the loop over the files starts one upload per file, under new ids or all under the given one |
| Transfers.TransferStore.RetryTransfer | src-mobile/App.tsx:1815-1823 | uploads the files of a listed upload again, whatever its phase; otherwise nothing |
| Transfers.TransferStore.CancelTransfer | src-mobile/App.tsx:1825-1836 | aborts the upload in the cancellation map, or marks the row when there is none |
| Transfers.TransferStore.UploadSettled | src-mobile/App.tsx:1736-1759 | settlement clears the map entry and gives the row its final phase |
| Transfers.AlwaysSound | src-mobile/App.tsx:1687-1836 | in every run the cancellation map holds exactly the uploads in flight that are not aborted, and rows in phase running and uploads in flight correspond one to one |
| Transfers.RetryKeepsSoundExactly | src-mobile/App.tsx:857-861 | retrying an upload keeps that invariant exactly when its row is not running |
| Transfers.CancelKeepsSound | src-mobile/App.tsx:1825-1836 | the Cancel offered on a row always finds and aborts its upload |
| Transfers.SettleKeepsSound | src-mobile/App.tsx:1736-1759 | settlement keeps the invariant, and the row no longer runs |
| Transfers.SettlementShows | src-mobile/App.tsx:1736-1759 | a settled upload's row becomes completed, canceled or failed according to the outcome; no other row changes |
| Transfers.RowsShowSettlements | src-mobile/App.tsx:1736-1759 | in every run an upload's row that does not run is completed exactly when the last settlement under its id was a success, canceled or failed exactly when it was that rejection, and offers Retry exactly after a rejection |
| Transfers.OffersExactly | src-mobile/App.tsx:857-866 | a row offers Cancel exactly while it runs and Retry exactly after an error or a cancellation |
| Transfers.RetryShows | src-mobile/App.tsx:1815-1823 | Retry on an upload that offers it makes its row run under one fresh upload; on any other row it does nothing |
| Transfers.QuietEvents | src-mobile/App.tsx:1825-1836 | progress changes no phase; Cancel on a running row takes its entry out of the map and asks for the abort, on others it does nothing |
| Transfers.EventsAct | src-mobile/App.tsx:1736-1759 | while an abort is under way only its own rejection acts; otherwise settlements, selections and clearing act as stated |
| Transfers.CancelThenRetry | src-mobile/App.tsx:1815-1836 | cancel, abort settlement and retry bring a running row back under exactly one fresh upload |
| Transfers.ClearKeepsSound | src-mobile/mobileStore.ts:270-276 | clearing finished transfers drops no running row |
| Transfers.ClearShows | src-mobile/mobileStore.ts:270-276 | clearing drops exactly the completed and the canceled rows and keeps the order of the others |
| Transfers.SelectKeepsSound | src-mobile/App.tsx:1696-1734 | selecting any number of files keeps the invariant |
| Transfers.SelectShows | src-mobile/App.tsx:1696-1734 | selecting n files puts n running rows in front, with n fresh uploads and their entries in the cancellation map, and changes nothing else |
| Transfers.DownloadShows | src-mobile/App.tsx:1644-1680 | a download puts one completed row in front and starts no upload |
| PathMemory.StableExactly | src-mobile/mobileStore.ts:74-76 | normalising twice equals normalising once exactly when the normal form has no white space at its edges |
| PathMemory.NormalizeExactly | src-mobile/mobileStore.ts:74-76 | the normal form takes white space off both ends, then slashes of either kind, and turns the remaining backslashes into slashes; nothing else changes |
| PathMemory.Dedupe | src-mobile/mobileStore.ts:78-93 | the loop with early break returns the first `limit` distinct non-empty normalised paths |
| PathMemory.CutEachStepExactly | src-mobile/mobileStore.ts:199-216 | from a canonical list, cutting on every recording equals the first 10 distinct paths of reversed history and initial list, throughout a run, exactly when every recorded path is stable |
| PathMemory.UnstablePath | src-mobile/mobileStore.ts:74-76 | recording `/ a` stores another path than its normal form |
| PathMemory.RoundTripExactly | src-mobile/mobileStore.ts:95-129 | a written snapshot reads back as it was exactly when both lists are canonical |
| PathMemory.AlwaysBounded | src-mobile/mobileStore.ts:169-226 | for all paths and any stored data, the lists stay within 12 and 10, without duplicates or empty paths |
| PathMemory.ReloadRestoresExactly | src-mobile/mobileStore.ts:95-226 | from canonical lists, in every run whose writes are saved, reading storage gives the lists in memory after every step exactly when the normal form of every pinned or recorded path is stable |
| PathMemory.ReloadFromAnyExactly | src-mobile/mobileStore.ts:95-226 | from any storage, the same holds exactly when every action that writes leaves canonical lists |
| PathMemory.StartNotCanonical | src-mobile/mobileStore.ts:95-129 | pinning `/ / / / a` leaves storage that reads back as a list that is not canonical |
| PathMemory.SavedIsRestoredExactly | src-mobile/mobileStore.ts:106-129 | from any memory and storage, a saved action is read back exactly when it leaves canonical lists |
| PathMemory.NextIsCanonicalExactly | src-mobile/mobileStore.ts:169-226 | an action on canonical lists leaves them canonical exactly when it is ignored, removes, or puts in a path whose normal form is stable |
| PathMemory.ReloadRestores | src-mobile/mobileStore.ts:95-226 | after any run of such actions whose last write was saved, reading storage gives the lists in memory |
| PathMemory.NotRestored | src-mobile/mobileStore.ts:74-129 | pinning `/ / a` shows one path and reads back another, though `/ a` is restored |
| PathMemory.UnpinUndoesPinExactly | src-mobile/mobileStore.ts:169-198 | unpinning undoes pinning exactly when the path was not pinned and the list had room |
| PathMemory.ActionShows | src-mobile/mobileStore.ts:169-226 | pinning puts the path first, keeps the others in order and cuts at 12; unpinning takes out just that path; recording and clearing touch only recent paths; an unsaved write leaves storage alone |
| PathMemory.PathStore.PinPath | src-mobile/mobileStore.ts:169-186 | puts the path first among the pins and writes storage; an empty path changes nothing |
| PathMemory.PathStore.UnpinPath | src-mobile/mobileStore.ts:187-198 | removes the path from the pins and writes storage |
| PathMemory.PathStore.RecordRecentPath | src-mobile/mobileStore.ts:199-216 | puts the path first among the recent ones and writes storage |
| PathMemory.PathStore.ClearRecentPaths | src-mobile/mobileStore.ts:217-226 | empties the recent paths and writes storage |
| Panels.SanitizeIsIdempotent | src/App.tsx:791-812 | sanitising twice is sanitising once |
| Panels.PanelStore.Update | src/App.tsx:6604-6628 | whether or not the write is skipped, the sanitised stored state is the sanitised result of the update; other profiles stay |
| Panels.ResolveActive | src/App.tsx:814-832 | no tab exactly when none is open, else an open one: the active one if it is open, else the default one if that is, else the first |
| Panels.AlwaysDisjoint | src/App.tsx:6630-6725 | over every run of clicks and direct openings, in every profile, no panel is both open and dismissed |
| Panels.PanelStore.OpenDirectly | src/App.tsx:2279-2302 | opens a panel in the stored state as it is, without sanitising and without skipping the write |
| Panels.ClickShows | src/App.tsx:6679-6725 | an opened panel is open, active and not dismissed, a closed one the reverse, and no other panel changes |
| Panels.OpeningShows | src/App.tsx:6679-6706 | in every store, a click that opens a panel leaves it open behind the others, active and not dismissed; no other panel changes |
| Panels.ClosingShows | src/App.tsx:6708-6725 | in every store, a click that closes a panel leaves it dismissed and not open; the active panel stays if it is another with a tab, else the default one takes over, else none without tabs |
| Panels.SelectingShows | src/App.tsx:6668-6677 | selecting an offered panel changes only which is active |
| Panels.ClicksIgnored | src/App.tsx:7165-7189 | toggling, closing, selecting and activating pinned panels or panels that are not offered do nothing; no click touches another profile |
| Panels.UnusableShows | src/App.tsx:6843-6847 | zen focus on a pinned panel, and settings that can not be shown, open nothing and leave no panel active |
| Panels.DirectShows | src/App.tsx:2279-2302 | a direct opening leaves the panel open and not dismissed, and active unless it is pinned |
| StartupQueue.AlwaysInOrder | src/App.tsx:505-562 | in every run the log is start, settle, start, settle in list order; at most one timer, idle callback or task is pending; an uncancelled queue is never stuck |
| StartupQueue.CancelIsFinal | src/App.tsx:557-561 | after cancelling no further start happens and nothing is scheduled |
| StartupQueue.AllTasksRun | src/App.tsx:525-555 | n rounds of delay, idle time and settlement run exactly the first n entries and schedule the next |
| StartupQueue.IdleTaskQueue.OnTimer | src/App.tsx:531-535 | the timer hands its entry to the idle callback unless cancelled |
| StartupQueue.IdleTaskQueue.OnIdle | src/App.tsx:537-541 | the idle callback starts its entry |
| StartupQueue.IdleTaskQueue.OnSettled | src/App.tsx:542-550 | settlement, resolved or rejected, schedules the next entry unless cancelled |
| Location.FormListRoundTrip | src-mobile/App.tsx:324-336 | parsing inverts serialising of a query, for every list of pairs (sections 5.1 and 5.2 of the WHATWG URL Standard) |
| Location.SearchOfBuilt | src-mobile/App.tsx:332-335 | the browser finds in the built URL exactly the query that was written |
| Location.RoundTripExactly | src-mobile/App.tsx:309-336 | reading the built URL gives the same state exactly for one of the four built-in tabs or a plugin's and a path without white space at its edges |
| Location.UrlText | src-mobile/App.tsx:324-336 | the URL holds `tab` unless it is the explorer, then `path` unless it is empty, form-encoded |
| Location.ReadsOtherTabs | src-mobile/App.tsx:309-322 | a missing or unknown tab reads as the explorer, and the path is trimmed |
| Location.FragmentIgnored | src-mobile/App.tsx:309-310 | a fragment is no part of the query and holds none |
| Location.RewritingIsFaithful | src-mobile/App.tsx:309-336 | whatever the address bar holds, the state read from it survives being written and read again |
| Location.PluginTabIds | src-mobile/mobileShared.ts:18-28 | a tab yields a pane id exactly when it was built from it |
| RelativePath.EncodedPathDecodes | src-mobile/mobileApi.ts:24-30 | splitting the encoded path and percent-decoding the parts gives exactly the non-empty segments (section 2.1 of RFC 3986) |
| RelativePath.FileUrlIdentifiesSegments | src-mobile/mobileApi.ts:52-55 | two paths share a file URL exactly when they have the same segments |
| RelativePath.FileUrlText | src-mobile/mobileApi.ts:52-55 | a file URL is `/files`, then the component-encoded segments with single slashes |
| RelativePath.ParentDropsLastSegment | src-mobile/mobileShared.ts:157-163 | the parent's segments are all but the last |
| RelativePath.RootReachedExactly | src-mobile/mobileShared.ts:157-163 | from a non-empty path the root is reached after exactly max(1, segment count) steps |
| Encoding.ComponentRoundTrip | src-mobile/mobileApi.ts:28 | percent-decoding and UTF-8 decoding invert component encoding |
| Encoding.ComponentTextExactly | src-mobile/mobileApi.ts:28 | component encoding leaves exactly letters, digits and `-_.!~*'()` alone and escapes the UTF-8 bytes of every other character |
| Encoding.FormRoundTrip | src-mobile/App.tsx:325-332 | form decoding inverts form encoding of every name and value |
| Encoding.FormTextExactly | src-mobile/App.tsx:325-332 | form encoding leaves exactly letters, digits and `*-._` alone, turns a space into `+`, and escapes every other character |
| Encoding.Utf8RoundTrip | src-mobile/mobileApi.ts:28 | both UTF-8 decoders invert the encoder |
| Base64Url.Base64UrlToBytes | src-mobile/mobilePush.ts:47-57 | fails exactly when `atob` does; the fill loop returns the bytes of the raw string |
| Base64Url.PaddingIsRemoved | src-mobile/mobilePush.ts:48-50 | padding always gives a multiple of four and `atob` takes it off again, except for the one bad length |
| Base64Url.DecodesExactly | src-mobile/mobilePush.ts:47-57 | every value, white space and equals signs included, decodes exactly when what remains without them is usable and the signs at its end with those added are none (and its length is not one more than a multiple of four) or at most two that fill it up |
| Base64Url.BareDecodesExactly | src-mobile/mobilePush.ts:47-57 | a value without white space and `=` decodes exactly when its characters are usable and its length is not one more than a multiple of four |
| Base64Url.DecodingInvertsEncoding | src-mobile/mobilePush.ts:47-57 | decoding inverts unpadded base64url encoding (section 5 of RFC 4648) for every byte sequence |
| Base64Url.AlphabetInOrder | src-mobile/mobilePush.ts:48-50 | the alphabet runs A to Z, a to z, 0 to 9, `-`, `_` (section 5 of RFC 4648) |
| Base64Url.EncodeSamples | src-mobile/mobilePush.ts:47-57 | samples of RFC 4648, without padding |
| Template.SequentialIsSimultaneous | src-mobile/App.tsx:680-683 | for rules whose values have no dollar pattern and keep clear of later tokens, except tokens whose own value puts them back, and any flat template, one `replaceAll` after another is one simultaneous substitution |
| Template.TemplateExactly | src-mobile/App.tsx:680-683 | a template is right for all rules whose values have no dollar pattern and keep clear of later tokens exactly when no `{` opened inside an unclosed `{` is ever closed |
| Template.ValuesExactly | src-mobile/App.tsx:680-683 | rules whose values have no `{` are right on all flat templates exactly when no value has `$` before `$`, `&`, a backtick or `'` |
| Template.ValueExactly | src-mobile/App.tsx:680-683 | any value is right, for all harmless values of the other rules and all flat templates, exactly when it has no such pattern, holds no later token and does not end with a beginning of one |
| Template.ExpandFixesExactly | src-mobile/App.tsx:681 | `replaceAll` inserts a value unchanged exactly when it has no dollar pattern |
| Template.PaneTemplatesResolveExactly | src-mobile/App.tsx:667-684 | the six placeholders of a plugin pane, with values that have no `{`, are right on all flat templates exactly when no value has a dollar pattern |
| Template.PanePathExactly | src-mobile/App.tsx:667-684 | any current path is right, for all harmless ids and names and all flat templates, exactly when it has no dollar pattern, keeps clear of the tokens of pane id, plugin id and plugin name, and keeps clear of or equals each of the two later tokens it is itself the value of |
| Template.PaneShape | src-mobile/App.tsx:667-679 | the six placeholders in the order they are replaced, and the value of each |
| Template.DollarPatternsMean | src-mobile/App.tsx:680-683 | around a token, `$$` stands for a dollar sign, `$&` for the token, `` $` `` for the text before it and `$'` for the text behind it; `$1` is plain |
| Template.UnsafeYetRight | src-mobile/App.tsx:680-683 | a value that holds a later token is right on all flat templates if that token's own value puts it back |
| Template.ValueWithToken | src-mobile/App.tsx:680-683 | a value that is a later token is replaced once more |
| Template.ValueWithDollar | src-mobile/App.tsx:681 | `$&` in a value stands for the token |
| Template.NestedTemplate | src-mobile/App.tsx:680-683 | in a template that is not flat a value can complete a token |
| GridLayout.ColumnsFitExactly | src-mobile/App.tsx:576 | n columns fit the width exactly when n is at most the column count, one column always counting |
| GridLayout.ViewportFitsExactly | src-mobile/App.tsx:560-576 | more than one column is shown exactly when the columns fit 280 pixels, or fit the viewport beside paddings, insets and the desktop sidebar |
| GridLayout.RowsPartitionEntries | src-mobile/App.tsx:902-904 | the row slices in order are the entries; every row has at least one entry and only the last may be short |

## Left out

- Freshness after a refresh of the same folder: the guard is by folder and not by request, so listings are assumed not to change on the host.
- Listing.ServerPage: share name, parent path, hub mode and the error answers of the host are not modelled; an error answer is a failed request.
- Listing.PageKeyInjective: that a listing key identifies folder and options is assumed of `JSON.stringify`.
- The React scheduling that decides when a render's values are stale: calls with the values of any earlier render are steps of every run.
- CatalogRefresh.RefreshRefs.Refresh: the branch without Tauri, the loading flag, error text and warnings, and the sibling catalogs; a directory's signature and discovery are arbitrary functions of its state, so files that change while a discovery reads them are not modelled.
- The presentation flows are modelled on values, one stretch at a time, because they are closures over awaits; only the two refs they share are updated in place.
- Presentation.UndisturbedPlacesWindow: the geometry values themselves (computed by layout functions that are not part of this model), showing, focusing, unmaximizing and the animation clocks.
- The programmatic-resize flag, the re-anchor timer check and the rendered mode at the head of the re-anchoring effect only suppress flows, so the model lets those flows run.
- PluginRuntime.AlwaysSound: style links, the container's contents and the plugin context's members.
- Transfers.AlwaysSound: byte counts, progress values, messages and the listing refresh after an upload.
- Transfers.TransferStore.BeginUploadTransfer: byte counts, progress, message and target path of a row.
- Transfers.TransferStore.UploadSettled: messages; the listing refresh after a success is a `Refresh` of the listing model.
- PathMemory.CutEachStepExactly: initial lists that are not canonical, whose paths recording normalises again.
- Template.PaneTemplatesResolveExactly: values with `{`; `PanePathExactly` treats the current path, `ValueExactly` any one value, `SequentialIsSimultaneous` all.
- PathMemory.PathStore.PinPath: malformed stored JSON; it reads like missing storage.
- Panels.AlwaysDisjoint: reordering panels, the IDE workbench dock tree, and how open tabs are derived; the derived tabs are arbitrary inputs.
- GridLayout.ColumnsFitExactly: the rounding that turns scaled sizes into whole pixels.
- Location.RoundTripExactly: history entries and the order of pushes and replacements.
- React rendering, themes, icons, the service worker, push subscription and the desktop back end.
