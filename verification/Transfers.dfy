/** The upload and download transfers of the mobile app: the store's list, the cancellation map and the
    uploads under way form one state machine.

    A click, an upload event, and the settlement of an upload's promise are one step each. Aborting an
    upload rejects its promise at once, so its settlement runs before anything else happens.
 */
module Transfers {
  import opened Options

  datatype Direction = Upload | Download

  datatype Phase = Queued | Running | Handoff | Completed | Failed | Canceled

  datatype Transfer = Transfer(id: nat, direction: Direction, phase: Phase, files: nat)

  // ---------------------------------------------------------------- the store's list

  function Patch(list: seq<Transfer>, id: nat, phase: Phase): seq<Transfer> {
    seq(|list|, i requires 0 <= i < |list| => if list[i].id == id then list[i].(phase := phase) else list[i])
  }

  function KeepUnfinished(list: seq<Transfer>): seq<Transfer> {
    if list == [] then []
    else (if list[0].phase.Completed? || list[0].phase.Canceled? then [] else [list[0]]) + KeepUnfinished(list[1..])
  }

  function Find(list: seq<Transfer>, id: nat): (r: Option<Transfer>)
    ensures r.Some? ==> r.value in list && r.value.id == id
    ensures r.None? ==> forall t :: t in list ==> t.id != id
  {
    if list == [] then None else if list[0].id == id then Some(list[0]) else Find(list[1..], id)
  }

  // ---------------------------------------------------------------- the machine

  /** `uploads` maps each upload under way to its transfer; `cancel` is the cancellation map, from transfer
      to upload; `aborting` is the upload whose abort has not settled. Identifiers are fresh counters. */
  datatype State = State(
    list: seq<Transfer>,
    cancel: map<nat, nat>,
    uploads: map<nat, nat>,
    aborting: Option<nat>,
    nextTransfer: nat,
    nextUpload: nat)

  const START := State([], map[], map[], None, 0, 0)

  /** One pass of `beginUploadTransfer`'s loop after the transfer's id is known. */
  function StartUpload(s: State, id: nat): State {
    s.(list := Patch(s.list, id, Running), cancel := s.cancel[id := s.nextUpload],
       uploads := s.uploads[s.nextUpload := id], nextUpload := s.nextUpload + 1)
  }

  function Create(s: State, direction: Direction, phase: Phase, files: nat): State {
    s.(list := [Transfer(s.nextTransfer, direction, phase, files)] + s.list, nextTransfer := s.nextTransfer + 1)
  }

  /** Uploading `count` newly selected files: one transfer each. */
  function BeginUploads(s: State, count: nat): State {
    if count == 0 then s
    else
      var before := BeginUploads(s, count - 1);
      StartUpload(Create(before, Upload, Queued, 1), before.nextTransfer)
  }

  /** Uploading the files of a transfer again, under its own id. */
  function UploadAgain(s: State, id: nat, count: nat): State {
    if count == 0 then s else StartUpload(UploadAgain(s, id, count - 1), id)
  }

  /** `retryTransfer`, which looks at the direction and the files only. */
  function Retry(s: State, id: nat): State {
    var found := Find(s.list, id);
    if found.None? || found.value.direction != Upload then s else UploadAgain(s, id, found.value.files)
  }

  /** `cancelTransfer`: abort the upload under way, or mark the transfer. */
  function Cancel(s: State, id: nat): State {
    if id in s.cancel then s.(aborting := Some(s.cancel[id]), cancel := s.cancel - {id})
    else s.(list := Patch(s.list, id, Canceled))
  }

  datatype Outcome = Uploaded | Rejected(saysCanceled: bool)

  /** The handlers of an upload's promise. */
  function Settle(s: State, upload: nat, outcome: Outcome): State {
    if upload !in s.uploads then s
    else
      var id := s.uploads[upload];
      var phase := if outcome.Uploaded? then Completed else if outcome.saysCanceled then Canceled else Failed;
      s.(list := Patch(s.list, id, phase), cancel := s.cancel - {id}, uploads := s.uploads - {upload},
         aborting := if s.aborting == Some(upload) then None else s.aborting)
  }

  /** A download is handed to the browser and is complete at once. */
  function BeginDownload(s: State): State {
    var created := Create(s, Download, Handoff, 0);
    created.(list := Patch(created.list, s.nextTransfer, Completed))
  }

  /** The store and the cancellation map, updated in place. The uploads under way belong to the browser. */
  class TransferStore {
    var list: seq<Transfer>
    var cancel: map<nat, nat>
    var uploads: map<nat, nat>
    var aborting: Option<nat>
    var nextTransfer: nat
    var nextUpload: nat

    ghost function View(): State
      reads this
    {
      State(list, cancel, uploads, aborting, nextTransfer, nextUpload)
    }

    constructor ()
      ensures View() == START
    {
      list, cancel, uploads, aborting, nextTransfer, nextUpload := [], map[], map[], None, 0, 0;
    }

    method CreateTransfer(direction: Direction, phase: Phase, files: nat) returns (id: nat)
      modifies this
      ensures View() == Create(old(View()), direction, phase, files) && id == old(nextTransfer)
    {
      id := nextTransfer;
      nextTransfer := nextTransfer + 1;
      list := [Transfer(id, direction, phase, files)] + list;
    }

    method PatchTransfer(id: nat, phase: Phase)
      modifies this
      ensures View() == old(View()).(list := Patch(old(list), id, phase))
    {
      list := Patch(list, id, phase);
    }

    method StartOne(id: nat)
      modifies this
      ensures View() == StartUpload(old(View()), id)
    {
      PatchTransfer(id, Running);
      uploads := uploads[nextUpload := id];
      cancel := cancel[id := nextUpload];
      nextUpload := nextUpload + 1;
    }

    /** `beginUploadTransfer`: one pass per file, each under a new id or all under the given one. */
    method BeginUploadTransfer(files: nat, existing: Option<nat>)
      modifies this
      ensures View() == if existing.None? then BeginUploads(old(View()), files)
                        else UploadAgain(old(View()), existing.value, files)
    {
      var done := 0;
      while done < files
        invariant 0 <= done <= files
        invariant View() == if existing.None? then BeginUploads(old(View()), done)
                            else UploadAgain(old(View()), existing.value, done)
      {
        var id;
        if existing.Some? {
          id := existing.value;
        } else {
          id := CreateTransfer(Upload, Queued, 1);
        }
        StartOne(id);
        done := done + 1;
      }
    }

    method RetryTransfer(id: nat)
      modifies this
      ensures View() == Retry(old(View()), id)
    {
      var found := Find(list, id);
      if found.None? || found.value.direction != Upload || found.value.files == 0 {
        return;
      }
      BeginUploadTransfer(found.value.files, Some(id));
    }

    method CancelTransfer(id: nat)
      modifies this
      ensures View() == Cancel(old(View()), id)
    {
      if id in cancel {
        aborting := Some(cancel[id]);
        cancel := cancel - {id};
      } else {
        PatchTransfer(id, Canceled);
      }
    }

    method UploadSettled(upload: nat, outcome: Outcome)
      requires upload in uploads
      modifies this
      ensures View() == Settle(old(View()), upload, outcome)
    {
      var id := uploads[upload];
      uploads := uploads - {upload};
      aborting := if aborting == Some(upload) then None else aborting;
      cancel := cancel - {id};
      if outcome.Uploaded? {
        PatchTransfer(id, Completed);
      } else {
        PatchTransfer(id, if outcome.saysCanceled then Canceled else Failed);
      }
    }

    method ClearFinished()
      modifies this
      ensures View() == old(View()).(list := KeepUnfinished(old(list)))
    {
      list := KeepUnfinished(list);
    }
  }

  // ---------------------------------------------------------------- events

  datatype Event =
    | Select(count: nat)                        // files chosen for upload
    | ClickRetry(id: nat)
    | ClickCancel(id: nat)
    | StartDownload
    | ClearFinished
    | Progress(upload: nat)
    | Finish(upload: nat, outcome: Outcome)     // a response, a network error, or the settlement of an abort

  /** The row of a transfer offers Retry in these phases only. */
  predicate OffersRetry(s: State, id: nat) {
    var found := Find(s.list, id);
    found.Some? && (found.value.phase.Failed? || found.value.phase.Canceled?)
  }

  predicate OffersCancel(s: State, id: nat) {
    var found := Find(s.list, id);
    found.Some? && (found.value.phase.Queued? || found.value.phase.Running?)
  }

  function Step(s: State, e: Event): State {
    if s.aborting.Some? then
      if e == Finish(s.aborting.value, Rejected(true)) then Settle(s, s.aborting.value, Rejected(true)) else s
    else
      match e
      case Select(count) => BeginUploads(s, count)
      case ClickRetry(id) => if OffersRetry(s, id) then Retry(s, id) else s
      case ClickCancel(id) => if OffersCancel(s, id) then Cancel(s, id) else s
      case StartDownload => BeginDownload(s)
      case ClearFinished => s.(list := KeepUnfinished(s.list))
      case Progress(upload) =>
        if upload in s.uploads then s.(list := Patch(s.list, s.uploads[upload], Running)) else s
      case Finish(upload, outcome) => Settle(s, upload, outcome)
  }

  function Run(events: seq<Event>): State {
    if events == [] then START else Step(Run(events[..|events| - 1]), events[|events| - 1])
  }

  // ---------------------------------------------------------------- the rows

  ghost predicate DistinctIds(list: seq<Transfer>) {
    forall i, j :: 0 <= i < j < |list| ==> list[i].id != list[j].id
  }

  ghost function Ids(list: seq<Transfer>): set<nat> {
    set t | t in list :: t.id
  }

  ghost function RunningIds(list: seq<Transfer>): set<nat> {
    set t | t in list && t.phase.Running? :: t.id
  }

  ghost predicate RowOk(t: Transfer, nextTransfer: nat) {
    && t.id < nextTransfer && !t.phase.Queued?
    && (t.direction.Upload? ==> t.files == 1)
    && (t.phase.Running? ==> t.direction.Upload?)
  }

  ghost predicate RowsSound(list: seq<Transfer>, nextTransfer: nat) {
    DistinctIds(list) && forall t :: t in list ==> RowOk(t, nextTransfer)
  }

  lemma FindIsTheRow(list: seq<Transfer>, t: Transfer)
    requires DistinctIds(list) && t in list
    ensures Find(list, t.id) == Some(t)
  {
    var r := Find(list, t.id);
    assert r.Some?;
    var i :| 0 <= i < |list| && list[i] == t;
    var j :| 0 <= j < |list| && list[j] == r.value;
  }

  lemma PatchAt(list: seq<Transfer>, id: nat, phase: Phase)
    ensures |Patch(list, id, phase)| == |list|
    ensures forall i :: 0 <= i < |list| ==>
      Patch(list, id, phase)[i] == if list[i].id == id then list[i].(phase := phase) else list[i]
  {
  }

  lemma PatchHas(list: seq<Transfer>, id: nat, phase: Phase, k: nat)
    ensures k in Ids(Patch(list, id, phase)) <==> k in Ids(list)
    ensures k in RunningIds(Patch(list, id, phase)) <==>
              if k == id then k in Ids(list) && phase.Running? else k in RunningIds(list)
  {
    var patched := Patch(list, id, phase);
    PatchAt(list, id, phase);
    hide Patch;
    if t :| t in list && t.id == k {
      var i :| 0 <= i < |list| && list[i] == t;
      assert patched[i] in patched;
    }
    if t :| t in list && t.id == k && t.phase.Running? {
      var i :| 0 <= i < |list| && list[i] == t;
      assert patched[i] in patched;
    }
    if t :| t in patched && t.id == k {
      var i :| 0 <= i < |list| && patched[i] == t;
      assert list[i] in list;
    }
    if t :| t in patched && t.id == k && t.phase.Running? {
      var i :| 0 <= i < |list| && patched[i] == t;
      assert list[i] in list;
    }
  }

  lemma PatchRows(list: seq<Transfer>, id: nat, phase: Phase)
    ensures |Patch(list, id, phase)| == |list|
    ensures DistinctIds(list) ==> DistinctIds(Patch(list, id, phase))
    ensures Ids(Patch(list, id, phase)) == Ids(list)
    ensures RunningIds(Patch(list, id, phase)) ==
            if id !in Ids(list) then RunningIds(list)
            else if phase.Running? then RunningIds(list) + {id} else RunningIds(list) - {id}
  {
    PatchAt(list, id, phase);
    assert DistinctIds(list) ==> DistinctIds(Patch(list, id, phase));
    assert RunningIds(list) <= Ids(list);
    hide *;
    forall k: nat
      ensures k in Ids(Patch(list, id, phase)) <==> k in Ids(list)
      ensures k in RunningIds(Patch(list, id, phase)) <==>
                if k == id then k in Ids(list) && phase.Running? else k in RunningIds(list)
    {
      PatchHas(list, id, phase, k);
    }
  }

  /** Giving a phase to an upload keeps the rows in order. */
  lemma PatchKeepsRows(list: seq<Transfer>, next: nat, id: nat, phase: Phase)
    requires DistinctIds(list) && !phase.Queued?
    requires forall t :: t in list ==> RowOk(t, next) || (t.id == id && RowOk(t.(phase := phase), next))
    requires forall t :: t in list && t.id == id && phase.Running? ==> t.direction.Upload?
    ensures RowsSound(Patch(list, id, phase), next)
  {
    PatchRows(list, id, phase);
    var patched := Patch(list, id, phase);
    forall t | t in patched ensures RowOk(t, next) {
      var i :| 0 <= i < |list| && patched[i] == t;
      assert list[i] in list;
    }
  }

  predicate Unfinished(t: Transfer) {
    !t.phase.Completed? && !t.phase.Canceled?
  }

  lemma {:induction false} ClearRows(list: seq<Transfer>)
    ensures forall t :: t in KeepUnfinished(list) <==> t in list && Unfinished(t)
    ensures DistinctIds(list) ==> DistinctIds(KeepUnfinished(list))
  {
    if list != [] {
      ClearRows(list[1..]);
      var rest := KeepUnfinished(list[1..]);
      assert DistinctIds(list) ==> DistinctIds(list[1..]) && forall t :: t in rest ==> t.id != list[0].id;
    }
  }

  lemma CreateRows(s: State, row: Transfer)
    requires RowsSound(s.list, s.nextTransfer) && row.id == s.nextTransfer && !row.phase.Running?
    ensures DistinctIds([row] + s.list) && RunningIds([row] + s.list) == RunningIds(s.list)
    ensures row.id !in RunningIds(s.list)
    ensures forall t :: t in s.list ==> RowOk(t, s.nextTransfer + 1)
  {
    assert forall t :: t in s.list ==> RowOk(t, s.nextTransfer) && t.id != row.id;
    assert forall t :: t in [row] + s.list <==> t == row || t in s.list;
  }

  // ---------------------------------------------------------------- the invariant

  /** Running transfers and uploads under way correspond one to one, and the cancellation map holds exactly
      the uploads that are not aborted. */
  ghost predicate Linked(running: set<nat>, s: State) {
    && (forall u :: u in s.uploads ==> u < s.nextUpload && s.uploads[u] in running)
    && (forall u, v :: u in s.uploads && v in s.uploads && s.uploads[u] == s.uploads[v] ==> u == v)
    && (s.aborting.Some? ==> s.aborting.value in s.uploads)
    && (forall id :: id in s.cancel ==>
          s.cancel[id] in s.uploads && s.uploads[s.cancel[id]] == id && s.aborting != Some(s.cancel[id]))
    && (forall id :: id in running ==>
          id in s.cancel || (s.aborting.Some? && s.uploads[s.aborting.value] == id))
  }

  ghost predicate Sound(s: State) {
    RowsSound(s.list, s.nextTransfer) && Linked(RunningIds(s.list), s)
  }

  lemma StartKeepsLinked(running: set<nat>, s: State, id: nat)
    requires Linked(running, s) && s.aborting.None?
    ensures Linked(running + {id}, StartUpload(s, id)) <==> id !in running
  {
    var s' := StartUpload(s, id);
    if id in running {
      assert s'.uploads[s.cancel[id]] == s'.uploads[s.nextUpload];
    }
  }

  lemma SettleKeepsLinked(running: set<nat>, s: State, upload: nat, outcome: Outcome)
    requires Linked(running, s) && upload in s.uploads && (s.aborting.Some? ==> s.aborting == Some(upload))
    ensures Linked(running - {s.uploads[upload]}, Settle(s, upload, outcome))
  {
  }

  lemma NewUploadKeepsSound(s: State)
    requires Sound(s) && s.aborting.None?
    ensures var s' := StartUpload(Create(s, Upload, Queued, 1), s.nextTransfer);
            Sound(s') && s'.aborting.None?
  {
    var row, created := Transfer(s.nextTransfer, Upload, Queued, 1), Create(s, Upload, Queued, 1);
    CreateRows(s, row);
    PatchRows(created.list, row.id, Running);
    PatchKeepsRows(created.list, created.nextTransfer, row.id, Running);
    assert row in created.list && row.id in Ids(created.list);
    assert Linked(RunningIds(s.list), created);
    hide Linked, RunningIds, DistinctIds, RowOk, Patch, Ids;
    StartKeepsLinked(RunningIds(s.list), created, row.id);
  }

  lemma {:induction false} SelectKeepsSound(s: State, count: nat)
    requires Sound(s) && s.aborting.None?
    ensures Sound(BeginUploads(s, count)) && BeginUploads(s, count).aborting.None?
  {
    if count > 0 {
      SelectKeepsSound(s, count - 1);
      NewUploadKeepsSound(BeginUploads(s, count - 1));
    }
  }

  /** A retry keeps the machine sound exactly when the transfer is not running. */
  lemma RetryKeepsSoundExactly(s: State, t: Transfer)
    requires Sound(s) && s.aborting.None? && t in s.list && t.direction.Upload?
    ensures Sound(Retry(s, t.id)) <==> !t.phase.Running?
  {
    FindIsTheRow(s.list, t);
    assert RowOk(t, s.nextTransfer);
    assert Retry(s, t.id) == StartUpload(UploadAgain(s, t.id, 0), t.id);
    assert t.id in Ids(s.list);
    PatchRows(s.list, t.id, Running);
    forall r | r in s.list && r.id == t.id ensures r == t {
      FindIsTheRow(s.list, r);
    }
    PatchKeepsRows(s.list, s.nextTransfer, t.id, Running);
    StartKeepsLinked(RunningIds(s.list), s, t.id);
  }

  /** Cancelling a running transfer always aborts its upload. */
  lemma CancelKeepsSound(s: State, id: nat)
    requires Sound(s) && s.aborting.None? && OffersCancel(s, id)
    ensures id in s.cancel && Sound(Cancel(s, id)) && Cancel(s, id).aborting == Some(s.cancel[id])
  {
    assert RowOk(Find(s.list, id).value, s.nextTransfer);
    assert id in RunningIds(s.list);
  }

  lemma SettleKeepsSound(s: State, upload: nat, outcome: Outcome)
    requires Sound(s) && (s.aborting.Some? ==> s.aborting == Some(upload))
    ensures Sound(Settle(s, upload, outcome))
    ensures upload in s.uploads ==> s.uploads[upload] !in RunningIds(Settle(s, upload, outcome).list)
  {
    if upload in s.uploads {
      var id := s.uploads[upload];
      var phase := if outcome.Uploaded? then Completed else if outcome.saysCanceled then Canceled else Failed;
      assert id in RunningIds(s.list) && id in Ids(s.list);
      PatchRows(s.list, id, phase);
      PatchKeepsRows(s.list, s.nextTransfer, id, phase);
      SettleKeepsLinked(RunningIds(s.list), s, upload, outcome);
    }
  }

  /** Cancelling a running transfer, letting the abort settle and retrying brings it back: the row runs
      again under a fresh upload, and in between it offered Retry and had no upload. */
  lemma CancelThenRetry(s: State, t: Transfer)
    requires Sound(s) && s.aborting.None? && t in s.list && t.phase.Running?
    ensures t.id in s.cancel
    ensures var aborted := s.cancel[t.id];
            var settled := Settle(Cancel(s, t.id), aborted, Rejected(true));
            var again := Retry(settled, t.id);
            && Sound(settled) && t.id !in RunningIds(settled.list) && OffersRetry(settled, t.id)
            && Sound(again) && t.id in RunningIds(again.list)
            && again.uploads == (s.uploads - {aborted})[s.nextUpload := t.id]
  {
    FindIsTheRow(s.list, t);
    CancelKeepsSound(s, t.id);
    var aborted := s.cancel[t.id];
    var canceled := t.(phase := Canceled);
    var settled := Settle(Cancel(s, t.id), aborted, Rejected(true));
    SettleKeepsSound(Cancel(s, t.id), aborted, Rejected(true));
    var i :| 0 <= i < |s.list| && s.list[i] == t;
    assert settled.list[i] == canceled && canceled in settled.list;
    FindIsTheRow(settled.list, canceled);
    assert RowOk(t, s.nextTransfer);
    RetryKeepsSoundExactly(settled, canceled);
    assert Retry(settled, t.id) == StartUpload(UploadAgain(settled, t.id, 0), t.id);
    assert t.id in Ids(settled.list);
    PatchRows(settled.list, t.id, Running);
  }

  lemma DownloadKeepsSound(s: State)
    requires Sound(s)
    ensures Sound(BeginDownload(s))
  {
    var row, created := Transfer(s.nextTransfer, Download, Handoff, 0), Create(s, Download, Handoff, 0);
    CreateRows(s, row);
    PatchRows(created.list, row.id, Completed);
    PatchKeepsRows(created.list, created.nextTransfer, row.id, Completed);
    assert RunningIds(BeginDownload(s).list) == RunningIds(s.list);
  }

  /** Clearing finished transfers drops no upload under way. */
  lemma ClearKeepsSound(s: State)
    requires Sound(s)
    ensures Sound(s.(list := KeepUnfinished(s.list)))
    ensures forall t :: t in s.list && t.phase.Running? ==> t in KeepUnfinished(s.list)
  {
    ClearRows(s.list);
    assert RunningIds(KeepUnfinished(s.list)) == RunningIds(s.list);
  }

  lemma ProgressKeepsSound(s: State, upload: nat)
    requires Sound(s) && upload in s.uploads
    ensures Sound(s.(list := Patch(s.list, s.uploads[upload], Running)))
  {
    var id := s.uploads[upload];
    assert id in RunningIds(s.list) && id in Ids(s.list);
    PatchRows(s.list, id, Running);
    var t :| t in s.list && t.id == id && t.phase.Running?;
    forall r | r in s.list && r.id == id ensures r == t {
      FindIsTheRow(s.list, r);
      FindIsTheRow(s.list, t);
    }
    assert RowOk(t, s.nextTransfer);
    PatchKeepsRows(s.list, s.nextTransfer, id, Running);
    assert RunningIds(s.list) + {id} == RunningIds(s.list);
  }

  lemma StepKeepsSound(s: State, e: Event)
    requires Sound(s)
    ensures Sound(Step(s, e))
  {
    if s.aborting.Some? {
      SettleKeepsSound(s, s.aborting.value, Rejected(true));
    } else {
      hide Sound, Settle, Cancel, BeginDownload, BeginUploads, UploadAgain, Patch;
      match e
      case Select(count) => SelectKeepsSound(s, count);
      case ClickRetry(id) =>
        if OffersRetry(s, id) && Find(s.list, id).value.direction.Upload? {
          RetryKeepsSoundExactly(s, Find(s.list, id).value);
        }
      case ClickCancel(id) => if OffersCancel(s, id) { CancelKeepsSound(s, id); }
      case Finish(upload, outcome) => SettleKeepsSound(s, upload, outcome);
      case Progress(upload) => if upload in s.uploads { ProgressKeepsSound(s, upload); }
      case StartDownload => DownloadKeepsSound(s);
      case ClearFinished => ClearKeepsSound(s);
    }
  }

  /** In every run. A finished transfer therefore has no upload under way. */
  lemma {:induction false} AlwaysSound(events: seq<Event>)
    ensures Sound(Run(events))
  {
    if events != [] {
      hide Sound, Step;
      AlwaysSound(events[..|events| - 1]);
      StepKeepsSound(Run(events[..|events| - 1]), events[|events| - 1]);
    }
  }

  // ---------------------------------------------------------------- what each event shows

  /** Under distinct ids a patch changes one row, its phase only. */
  lemma PatchOne(list: seq<Transfer>, k: nat, phase: Phase)
    requires DistinctIds(list) && k < |list|
    ensures Patch(list, list[k].id, phase) == list[k := list[k].(phase := phase)]
  {
  }

  lemma RunningRow(s: State, id: nat) returns (k: nat)
    requires id in RunningIds(s.list)
    ensures k < |s.list| && s.list[k].id == id && s.list[k].phase.Running?
  {
    var t :| t in s.list && t.phase.Running? && t.id == id;
    k :| 0 <= k < |s.list| && s.list[k] == t;
  }

  /** A row offers Cancel exactly while it runs, and Retry exactly after an error or a cancellation. */
  lemma OffersExactly(s: State, t: Transfer)
    requires Sound(s) && t in s.list
    ensures OffersCancel(s, t.id) <==> t.phase.Running?
    ensures OffersRetry(s, t.id) <==> t.phase == Failed || t.phase == Canceled
  {
    FindIsTheRow(s.list, t);
    assert RowOk(t, s.nextTransfer);
  }

  /** The settlement of an upload: its row becomes completed, canceled or failed, and nothing else in the list
      changes; the upload and its cancellation entry are gone. */
  lemma SettlementShows(s: State, upload: nat, outcome: Outcome) returns (k: nat)
    requires Sound(s) && upload in s.uploads
    ensures var s' := Settle(s, upload, outcome);
            && k < |s.list| && s.list[k].id == s.uploads[upload] && s.list[k].phase.Running?
            && s'.list == s.list[k := s.list[k].(phase :=
                 match outcome
                 case Uploaded => Completed
                 case Rejected(saysCanceled) => if saysCanceled then Canceled else Failed)]
            && s'.uploads == s.uploads - {upload} && s'.cancel == s.cancel - {s.list[k].id}
            && s'.nextTransfer == s.nextTransfer && s'.nextUpload == s.nextUpload
  {
    k := RunningRow(s, s.uploads[upload]);
    var phase := match outcome
                 case Uploaded => Completed
                 case Rejected(saysCanceled) => if saysCanceled then Canceled else Failed;
    PatchOne(s.list, k, phase);
    hide Patch, DistinctIds, RowOk, Linked, RunningIds;
  }

  /** An upload's progress changes nothing of its row, and Cancel on a running row only asks for the abort. */
  lemma QuietEvents(s: State, upload: nat, id: nat)
    requires Sound(s) && s.aborting.None?
    ensures Step(s, Progress(upload)) == s
    ensures Step(s, ClickCancel(id)) ==
              if id in RunningIds(s.list) && id in s.cancel
              then s.(aborting := Some(s.cancel[id]), cancel := s.cancel - {id}) else s
    ensures id in RunningIds(s.list) <==> id in s.cancel
  {
    if upload in s.uploads {
      var k := RunningRow(s, s.uploads[upload]);
      PatchOne(s.list, k, Running);
    }
    if OffersCancel(s, id) {
      CancelKeepsSound(s, id);
      OffersExactly(s, Find(s.list, id).value);
    } else if id in RunningIds(s.list) {
      var k := RunningRow(s, id);
      OffersExactly(s, s.list[k]);
    }
  }

  /** The rows that selecting files puts in front: running uploads of one file each, the last one first. */
  function NewRows(first: nat, count: nat): seq<Transfer> {
    if count == 0 then [] else [Transfer(first + count - 1, Upload, Running, 1)] + NewRows(first, count - 1)
  }

  lemma FrontPatched(list: seq<Transfer>, row: Transfer, phase: Phase)
    requires forall t :: t in list ==> t.id != row.id
    ensures Patch([row] + list, row.id, phase) == [row.(phase := phase)] + list
  {
    var more, patched := [row] + list, Patch([row] + list, row.id, phase);
    PatchAt(more, row.id, phase);
    hide Patch;
    forall i | 0 <= i < |list| ensures patched[i + 1] == list[i] {
      assert more[i + 1] == list[i] && list[i] in list;
    }
    assert patched[0] == row.(phase := phase) && |patched| == 1 + |list|;
  }

  lemma FreshId(s: State)
    requires Sound(s)
    ensures forall t :: t in s.list ==> t.id != s.nextTransfer
  {
    assert forall t :: t in s.list ==> RowOk(t, s.nextTransfer);
  }

  /** Map entries from consecutive keys to consecutive values. */
  function Entries(key: nat, value: nat, count: nat): map<nat, nat> {
    if count == 0 then map[] else Entries(key, value, count - 1)[key + count - 1 := value + count - 1]
  }

  /** One new upload: its row in front, running, and an entry in the cancellation map. */
  function WithNew(s: State): State {
    State([Transfer(s.nextTransfer, Upload, Running, 1)] + s.list,
          s.cancel[s.nextTransfer := s.nextUpload], s.uploads[s.nextUpload := s.nextTransfer],
          s.aborting, s.nextTransfer + 1, s.nextUpload + 1)
  }

  lemma NewUploadShows(s: State)
    requires Sound(s)
    ensures StartUpload(Create(s, Upload, Queued, 1), s.nextTransfer) == WithNew(s)
  {
    FreshId(s);
    hide Sound, Patch;
    FrontPatched(s.list, Transfer(s.nextTransfer, Upload, Queued, 1), Running);
  }

  /** One running row and one upload for each selected file, with an entry in the cancellation map; the rest stays. */
  function Selected(s: State, count: nat): State {
    State(NewRows(s.nextTransfer, count) + s.list,
          s.cancel + Entries(s.nextTransfer, s.nextUpload, count),
          s.uploads + Entries(s.nextUpload, s.nextTransfer, count),
          s.aborting, s.nextTransfer + count, s.nextUpload + count)
  }

  lemma EntriesMore(entries: map<nat, nat>, key: nat, value: nat, n: nat)
    ensures entries + Entries(key, value, n + 1) == (entries + Entries(key, value, n))[key + n := value + n]
  {
  }

  lemma RowsMore(first: nat, n: nat, list: seq<Transfer>)
    ensures NewRows(first, n + 1) + list == [Transfer(first + n, Upload, Running, 1)] + (NewRows(first, n) + list)
  {
  }

  lemma SelectedMore(s: State, n: nat)
    ensures Selected(s, n + 1) == WithNew(Selected(s, n))
  {
    hide NewRows, Entries;
    EntriesMore(s.cancel, s.nextTransfer, s.nextUpload, n);
    EntriesMore(s.uploads, s.nextUpload, s.nextTransfer, n);
    RowsMore(s.nextTransfer, n, s.list);
  }

  lemma SelectedNone(s: State)
    ensures Selected(s, 0) == s
  {
    assert [] + s.list == s.list && s.cancel + map[] == s.cancel && s.uploads + map[] == s.uploads;
  }

  lemma {:induction false} NewRowsRun(first: nat, count: nat)
    ensures |NewRows(first, count)| == count
    ensures forall t :: t in NewRows(first, count) ==> t.direction.Upload? && t.phase.Running? && t.files == 1
  {
    if count > 0 {
      NewRowsRun(first, count - 1);
    }
  }

  lemma OneUploadMore(s: State, n: nat)
    ensures var before := BeginUploads(s, n);
            BeginUploads(s, n + 1) == StartUpload(Create(before, Upload, Queued, 1), before.nextTransfer)
    ensures BeginUploads(s, 0) == s
  {
    hide StartUpload, Create;
  }

  lemma {:induction false} SelectShows(s: State, count: nat)
    requires Sound(s) && s.aborting.None?
    ensures BeginUploads(s, count) == Selected(s, count)
  {
    hide *;
    if count == 0 {
      SelectedNone(s);
      OneUploadMore(s, 0);
    } else {
      SelectShows(s, count - 1);
      SelectKeepsSound(s, count - 1);
      OneUploadMore(s, count - 1);
      NewUploadShows(BeginUploads(s, count - 1));
      SelectedMore(s, count - 1);
    }
  }

  /** A click on Retry: an upload that offers it runs again under a fresh upload; no other row changes, and nothing at
      all happens for other rows and for downloads. */
  lemma RetryShows(s: State, k: nat)
    requires Sound(s) && s.aborting.None? && k < |s.list|
    ensures var t := s.list[k];
            var s' := Step(s, ClickRetry(t.id));
            if t.direction.Upload? && (t.phase == Failed || t.phase == Canceled)
            then && s'.list == s.list[k := t.(phase := Running)]
                 && s'.uploads == s.uploads[s.nextUpload := t.id] && s'.cancel == s.cancel[t.id := s.nextUpload]
                 && s'.nextUpload == s.nextUpload + 1 && s'.nextTransfer == s.nextTransfer
            else s' == s
  {
    var t := s.list[k];
    OffersExactly(s, t);
    FindIsTheRow(s.list, t);
    assert RowOk(t, s.nextTransfer);
    assert UploadAgain(s, t.id, 1) == StartUpload(UploadAgain(s, t.id, 0), t.id);
    PatchOne(s.list, k, Running);
    hide Patch;
  }

  /** A download: one completed row in front, and no upload. */
  lemma DownloadShows(s: State)
    requires Sound(s) && s.aborting.None?
    ensures Step(s, StartDownload) ==
              s.(list := [Transfer(s.nextTransfer, Download, Completed, 0)] + s.list,
                 nextTransfer := s.nextTransfer + 1)
  {
    FreshId(s);
    hide Sound, Patch;
    FrontPatched(s.list, Transfer(s.nextTransfer, Download, Handoff, 0), Completed);
  }

  lemma {:induction false} KeepJoined(a: seq<Transfer>, b: seq<Transfer>)
    ensures KeepUnfinished(a + b) == KeepUnfinished(a) + KeepUnfinished(b)
  {
    if a == [] {
      assert a + b == b;
    } else {
      assert (a + b)[1..] == a[1..] + b;
      KeepJoined(a[1..], b);
    }
  }

  /** Clearing drops exactly the completed and the canceled rows, and keeps the others in their order. */
  lemma ClearShows(front: seq<Transfer>, t: Transfer, rest: seq<Transfer>)
    ensures KeepUnfinished(front + ([t] + rest)) ==
              KeepUnfinished(front)
              + ((if t.phase == Completed || t.phase == Canceled then [] else [t]) + KeepUnfinished(rest))
    ensures KeepUnfinished([]) == []
  {
    KeepJoined(front, [t] + rest);
    assert ([t] + rest)[1..] == rest;
  }

  /** Which events act: anything while no abort is under way, and then only the rejection of the aborted upload. */
  lemma EventsAct(s: State, e: Event, count: nat)
    requires Sound(s)
    ensures s.aborting.Some? && !(e.Finish? && e.upload == s.aborting.value && e.outcome == Rejected(true)) ==>
              Step(s, e) == s
    ensures e.Finish? && (s.aborting.Some? ==> e.upload == s.aborting.value && e.outcome == Rejected(true)) ==>
              Step(s, e) == Settle(s, e.upload, e.outcome)
    ensures s.aborting.None? ==> Step(s, Select(count)) == Selected(s, count)
    ensures s.aborting.None? ==> Step(s, ClearFinished) == s.(list := KeepUnfinished(s.list))
    ensures forall t :: t in NewRows(s.nextTransfer, count) ==> t.direction.Upload? && t.phase.Running? && t.files == 1
    ensures |NewRows(s.nextTransfer, count)| == count
  {
    NewRowsRun(s.nextTransfer, count);
    if s.aborting.None? {
      SelectShows(s, count);
    }
    hide Sound, Settle, KeepUnfinished, NewRows, Selected;
  }

  // ---------------------------------------------------------------- the last settlement, in every run

  /** The event settles an upload of this transfer: any outcome, but while an abort is under way only its own. */
  predicate SettlesTransfer(s: State, e: Event, id: nat) {
    && e.Finish? && e.upload in s.uploads && s.uploads[e.upload] == id
    && (s.aborting.Some? ==> e.upload == s.aborting.value && e.outcome == Rejected(true))
  }

  ghost function LastSettlement(events: seq<Event>, id: nat): Option<Outcome> {
    if events == [] then None
    else if SettlesTransfer(Run(events[..|events| - 1]), events[|events| - 1], id) then
      Some(events[|events| - 1].outcome)
    else LastSettlement(events[..|events| - 1], id)
  }

  /** An upload's row that does not run shows this settlement. */
  predicate Shows(t: Transfer, last: Option<Outcome>) {
    t.direction.Upload? && !t.phase.Running? ==>
      && (t.phase == Completed <==> last == Some(Uploaded))
      && (t.phase == Failed <==> last == Some(Rejected(false)))
      && (t.phase == Canceled <==> last == Some(Rejected(true)))
      && last.Some?
  }

  lemma RetryLists(s: State, id: nat, t: Transfer)
    requires Sound(s) && s.aborting.None? && t in Step(s, ClickRetry(id)).list && !t.phase.Running?
    ensures t in s.list
  {
    var found := Find(s.list, id);
    if found.Some? {
      var k :| 0 <= k < |s.list| && s.list[k] == found.value;
      RetryShows(s, k);
    }
  }

  lemma SettlementShowsRow(s: State, upload: nat, outcome: Outcome, t: Transfer)
    requires Sound(s) && upload in s.uploads && t in Settle(s, upload, outcome).list
    ensures if s.uploads[upload] == t.id then Shows(t, Some(outcome)) else t in s.list
  {
    var k := SettlementShows(s, upload, outcome);
    assert DistinctIds(s.list);
    hide Sound, Settle;
    var j :| 0 <= j < |s.list| && Settle(s, upload, outcome).list[j] == t;
    assert j != k ==> s.list[j].id != s.list[k].id;
  }

  lemma SettleNothing(s: State, upload: nat, outcome: Outcome)
    requires upload !in s.uploads
    ensures Settle(s, upload, outcome) == s
  {
  }

  /** After a step an upload's row runs, or shows the settlement of this step, or is as it was. */
  lemma StepShowsRow(s: State, e: Event, t: Transfer)
    requires Sound(s) && t in Step(s, e).list && t.direction.Upload? && !t.phase.Running?
    ensures if SettlesTransfer(s, e, t.id) then Shows(t, Some(e.outcome)) else t in s.list
  {
    assert s.aborting.Some? ==> s.aborting.value in s.uploads;
    hide Sound, Settle, BeginUploads, Retry, Cancel, BeginDownload, KeepUnfinished, OffersRetry, OffersCancel, Patch;
    if e.Finish? && e.upload in s.uploads && (s.aborting.Some? ==> e == Finish(s.aborting.value, Rejected(true))) {
      SettlementShowsRow(s, e.upload, e.outcome, t);
    } else if s.aborting.None? {
      match e
      case Select(count) =>
        SelectShows(s, count);
        NewRowsRun(s.nextTransfer, count);
      case ClickRetry(id) => RetryLists(s, id, t);
      case ClickCancel(id) => QuietEvents(s, 0, id);
      case Progress(upload) => QuietEvents(s, upload, 0);
      case StartDownload => DownloadShows(s);
      case ClearFinished => ClearRows(s.list);
      case Finish(upload, outcome) => assert Settle(s, upload, outcome) == s by { SettleNothing(s, upload, outcome); }
    }
  }

  /** In every run, a row of an upload that does not run is completed exactly when the last settlement under its id was
      a success, failed or canceled exactly when it was that rejection; and it offers Retry exactly after a
      rejection. */
  lemma {:induction false} RowsShowSettlements(events: seq<Event>, t: Transfer)
    requires t in Run(events).list && t.direction.Upload?
    ensures Shows(t, LastSettlement(events, t.id))
    ensures OffersRetry(Run(events), t.id) <==>
              !t.phase.Running? && LastSettlement(events, t.id).Some? && LastSettlement(events, t.id) != Some(Uploaded)
  {
    AlwaysSound(events);
    OffersExactly(Run(events), t);
    if events != [] && !t.phase.Running? {
      var before, e := events[..|events| - 1], events[|events| - 1];
      AlwaysSound(before);
      hide Sound, Step, OffersRetry, OffersCancel;
      StepShowsRow(Run(before), e, t);
      if !SettlesTransfer(Run(before), e, t.id) {
        RowsShowSettlements(before, t);
      }
    }
  }
}
