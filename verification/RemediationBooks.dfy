/** What becomes of every proposal the remediator stores. */
module RemediationBooks {
  import opened Actions
  import opened Remediator
  import opened RemediationProtocol
  import opened RemediationGuarantees

  // --- One entry ---------------------------------------------------------------------------------

  /** What happened to one entry, counted; `unverified` are the reports of a failed verification. A restart has
      `forgotten` what was in the map, and `interrupted` what was being verified. */
  datatype Sheet = Sheet(stored: nat, overwritten: nat, dropped: nat, executed: nat, rolledBack: nat,
                         completed: nat, unverified: nat, deleted: nat, forgotten: nat, interrupted: nat)

  const BLANK := Sheet(0, 0, 0, 0, 0, 0, 0, 0, 0, 0)

  function Posted(s: Sheet, d: Deed): Sheet {
    match d
    case Stored(_, _, _) => s.(stored := s.stored + 1)
    case Overwritten(_, _, _) => s.(overwritten := s.overwritten + 1)
    case Dropped(_, _, _) => s.(dropped := s.dropped + 1)
    case Executed(_, _, _, _, _) => s.(executed := s.executed + 1)
    case RolledBack(_, _, _, _) => s.(rolledBack := s.rolledBack + 1)
    case Completed(_, _, _, FailedVerification) => s.(completed := s.completed + 1, unverified := s.unverified + 1)
    case Completed(_, _, _, _) => s.(completed := s.completed + 1)
    case Deleted(_, _, _) => s.(deleted := s.deleted + 1)
  }

  ghost predicate IsActive(rem: Rem, id: nat) {
    exists cid :: cid in rem.active && rem.active[cid].id == id
  }

  /** The decision handler is at work on it. */
  predicate IsHandled(rem: Rem, id: nat) {
    rem.pending != Idle && rem.pending.entry.id == id
  }

  predicate IsVerified(rem: Rem, id: nat) {
    rem.pending.Verifying? && rem.pending.entry.id == id
  }

  function One(b: bool): nat { if b then 1 else 0 }

  ghost function PostedTo(s: Sheet, h: Happening, id: nat): Sheet {
    match h
    case Evaluated(_, _, _, _, _, _) => s
    case Did(deed) => if deed.id == id then Posted(s, deed) else s
    case Restarted(rem) => s.(forgotten := s.forgotten + One(IsActive(rem, id)),
                              interrupted := s.interrupted + One(IsVerified(rem, id)))
  }

  ghost function SheetOf(trace: seq<Happening>, id: nat): Sheet {
    if trace == [] then BLANK else PostedTo(SheetOf(trace[..|trace| - 1], id), trace[|trace| - 1], id)
  }

  lemma {:induction false} SheetSnoc(trace: seq<Happening>, h: Happening, id: nat)
    ensures SheetOf(trace + [h], id) == PostedTo(SheetOf(trace, id), h, id)
  {
    assert (trace + [h])[..|trace|] == trace;
  }

  /** An entry is stored once; it leaves the map in exactly one way; it is executed at most once, never after a
      rejection, and reported once for that, unless its verification is still awaited or was interrupted. */
  ghost predicate Proper(s: Sheet, known: bool, active: bool, handled: bool, verified: bool) {
    && s.stored == One(known)
    && s.stored == s.overwritten + s.dropped + s.deleted + s.forgotten + One(active)
    && s.executed == s.completed + s.interrupted + One(verified)
    && s.executed + s.dropped <= s.stored
    && s.rolledBack == s.unverified <= s.completed
    && (active && !handled ==> s.executed == 0)
    && (handled ==> s.executed == 1)
  }

  // --- The map -----------------------------------------------------------------------------------

  ghost predicate Recorded(trace: seq<Happening>, cid: Cid, entry: InFlight) {
    Did(Stored(entry.id, cid, entry.action)) in trace
  }

  ghost predicate MapInv(w: World) {
    && (forall cid :: cid in w.rem.active ==>
          w.rem.active[cid].id < w.rem.stored && Recorded(w.trace, cid, w.rem.active[cid]))
    && (forall a, b :: a in w.rem.active && b in w.rem.active && w.rem.active[a].id == w.rem.active[b].id ==> a == b)
  }

  /** The entry that the decision handler is at work on was the entry of its correlation id when the handler
      started; one still is, the same or a later one. */
  ghost predicate PendingInv(w: World) {
    w.rem.pending != Idle ==>
      var cid, state := w.rem.pending.cid, w.rem.pending.entry;
      && cid in w.rem.active && state.id <= w.rem.active[cid].id
      && Recorded(w.trace, cid, state)
      && forall a :: a in w.rem.active && w.rem.active[a].id == state.id ==> a == cid
  }

  /** What is executed is what was stored. */
  ghost predicate RunsWhatIsStored(trace: seq<Happening>) {
    forall k :: 0 <= k < |trace| && IsExecution(trace[k]) ==>
      Did(Stored(trace[k].deed.id, trace[k].deed.cid, trace[k].deed.action)) in trace[..k]
  }

  ghost predicate EntryInv(w: World, id: nat) {
    Proper(SheetOf(w.trace, id), id < w.rem.stored, IsActive(w.rem, id), IsHandled(w.rem, id), IsVerified(w.rem, id))
  }

  ghost predicate Books(w: World) {
    MapInv(w) && PendingInv(w) && RunsWhatIsStored(w.trace) && forall id: nat :: EntryInv(w, id)
  }

  lemma {:induction false} RunsSnoc(trace: seq<Happening>, h: Happening)
    requires RunsWhatIsStored(trace)
    requires IsExecution(h) ==> Did(Stored(h.deed.id, h.deed.cid, h.deed.action)) in trace
    ensures RunsWhatIsStored(trace + [h])
  {
    var all := trace + [h];
    forall k | 0 <= k < |all| && IsExecution(all[k])
      ensures Did(Stored(all[k].deed.id, all[k].deed.cid, all[k].deed.action)) in all[..k]
    {
      assert all[..k] == trace[..k];
      assert trace[..|trace|] == trace;
    }
  }

  // --- Storing -----------------------------------------------------------------------------------

  lemma {:induction false} StoreKeepsEntries(w: World, cid: Cid, entry: InFlight, id: nat)
    requires Books(w) && entry.id == w.rem.stored
    ensures
      var rem := Rem(w.rem.active[cid := entry], w.rem.pending, w.rem.stored + 1);
      && IsHandled(rem, id) == IsHandled(w.rem, id) && IsVerified(rem, id) == IsVerified(w.rem, id)
      && IsActive(rem, id)
         == (id == entry.id || (IsActive(w.rem, id) && !(cid in w.rem.active && w.rem.active[cid].id == id)))
      && (id == entry.id ==> !IsActive(w.rem, id) && !IsHandled(w.rem, id))
  {
    var rem := Rem(w.rem.active[cid := entry], w.rem.pending, w.rem.stored + 1);
    if id == entry.id {
      assert rem.active[cid].id == id;
    } else if IsActive(w.rem, id) {
      var a :| a in w.rem.active && w.rem.active[a].id == id;
      assert a != cid ==> a in rem.active && rem.active[a].id == id;
      assert a == cid ==> forall b :: b in w.rem.active && w.rem.active[b].id == id ==> b == cid;
    }
    if IsActive(rem, id) && id != entry.id {
      var a :| a in rem.active && rem.active[a].id == id;
      assert a in w.rem.active && w.rem.active[a].id == id;
    }
  }

  /** The sheet of an entry after a proposal: `isNew` says that it is the new one, `current` that it is the one
      it takes the place of. */
  function AfterProposal(s: Sheet, isNew: bool, current: bool): Sheet {
    s.(stored := s.stored + One(isNew), overwritten := s.overwritten + One(current))
  }

  lemma {:induction false} ProposalSheet(w: World, plan: Diagnosis -> Option<Plan>, cid: Cid, d: Diagnosis, id: nat)
    requires MapInv(w) && plan(d).Some?
    ensures SheetOf(Apply(w, OnDiagnosis(w.rem, plan, cid, d)).trace, id)
         == AfterProposal(SheetOf(w.trace, id), id == w.rem.stored, cid in w.rem.active && w.rem.active[cid].id == id)
  {
    var w' := Apply(w, OnDiagnosis(w.rem, plan, cid, d));
    var stored := Did(Stored(w.rem.stored, cid, plan(d).value.action));
    if cid in w.rem.active {
      var over := Did(Overwritten(w.rem.active[cid].id, cid, w.rem.active[cid].action));
      assert w'.trace == w.trace + [over] + [stored];
      SheetSnoc(w.trace, over, id);
      SheetSnoc(w.trace + [over], stored, id);
    } else {
      assert w'.trace == w.trace + [stored];
      SheetSnoc(w.trace, stored, id);
    }
  }

  lemma {:induction false} DiagnosisKeepsEntry(w: World, plan: Diagnosis -> Option<Plan>, cid: Cid, d: Diagnosis,
                                               id: nat)
    requires Books(w) && plan(d).Some?
    ensures EntryInv(Apply(w, OnDiagnosis(w.rem, plan, cid, d)), id)
  {
    var p := plan(d).value;
    ProposalSheet(w, plan, cid, d, id);
    StoreKeepsEntries(w, cid, InFlight(w.rem.stored, d, p.runbook, p.action), id);
    assert EntryInv(w, id);
    assert cid in w.rem.active && w.rem.active[cid].id == id ==> IsActive(w.rem, id);
  }

  lemma {:induction false} DiagnosisKeepsMap(w: World, plan: Diagnosis -> Option<Plan>, cid: Cid, d: Diagnosis)
    requires Books(w) && plan(d).Some?
    ensures var w' := Apply(w, OnDiagnosis(w.rem, plan, cid, d)); MapInv(w') && PendingInv(w')
  {
    var w' := Apply(w, OnDiagnosis(w.rem, plan, cid, d));
    assert w'.trace[|w'.trace| - 1] == Did(Stored(w.rem.stored, cid, plan(d).value.action));
    if w.rem.pending != Idle {
      assert w'.rem.active[w.rem.pending.cid].id >= w.rem.pending.entry.id;
      assert w.rem.pending.entry.id < w.rem.stored;
    }
  }

  lemma {:induction false} DiagnosisKeepsRuns(w: World, plan: Diagnosis -> Option<Plan>, cid: Cid, d: Diagnosis)
    requires Books(w) && plan(d).Some?
    ensures RunsWhatIsStored(Apply(w, OnDiagnosis(w.rem, plan, cid, d)).trace)
  {
    var w' := Apply(w, OnDiagnosis(w.rem, plan, cid, d));
    var stored := Did(Stored(w.rem.stored, cid, plan(d).value.action));
    if cid in w.rem.active {
      var over := Did(Overwritten(w.rem.active[cid].id, cid, w.rem.active[cid].action));
      RunsSnoc(w.trace, over);
      RunsSnoc(w.trace + [over], stored);
      assert w'.trace == w.trace + [over] + [stored];
    } else {
      RunsSnoc(w.trace, stored);
      assert w'.trace == w.trace + [stored];
    }
  }

  lemma {:induction false} DiagnosisKeepsBooks(w: World, plan: Diagnosis -> Option<Plan>, cid: Cid, d: Diagnosis)
    requires Books(w)
    ensures Books(Apply(w, OnDiagnosis(w.rem, plan, cid, d)))
  {
    var w' := Apply(w, OnDiagnosis(w.rem, plan, cid, d));
    if plan(d).Some? {
      DiagnosisKeepsMap(w, plan, cid, d);
      DiagnosisKeepsRuns(w, plan, cid, d);
      forall id: nat
        ensures EntryInv(w', id)
      {
        DiagnosisKeepsEntry(w, plan, cid, d, id);
      }
    } else {
      assert w'.trace == w.trace;
      forall id: nat
        ensures EntryInv(w', id)
      {
        assert EntryInv(w, id);
      }
    }
  }

  // --- Forgetting --------------------------------------------------------------------------------

  /** Forgetting a correlation id takes exactly its entry out. */
  lemma {:induction false} ForgetKeepsEntries(w: World, cid: Cid, pending: Pending, id: nat)
    requires MapInv(w) && cid in w.rem.active
    ensures IsActive(Rem(Forget(w.rem.active, cid), pending, w.rem.stored), id)
         == (IsActive(w.rem, id) && w.rem.active[cid].id != id)
  {
    var rem := Rem(Forget(w.rem.active, cid), pending, w.rem.stored);
    if IsActive(rem, id) {
      var a :| a in rem.active && rem.active[a].id == id;
      assert a in w.rem.active && w.rem.active[a].id == id;
    }
    if IsActive(w.rem, id) && w.rem.active[cid].id != id {
      var a :| a in w.rem.active && w.rem.active[a].id == id;
      assert a in rem.active && rem.active[a].id == id;
    }
  }

  lemma {:induction false} ForgetKeepsMap(w: World, cid: Cid, more: seq<Happening>)
    requires MapInv(w)
    ensures MapInv(w.(rem := Rem(Forget(w.rem.active, cid), Idle, w.rem.stored), trace := w.trace + more))
  {}

  lemma {:induction false} RejectionKeepsBooks(w: World, cid: Cid, serial: nat, docker: Docker)
    requires Books(w) && w.rem.pending == Idle && cid in w.rem.active
    ensures Books(Apply(w, OnDecision(w.rem, cid, StatusRejected, serial, docker)))
  {
    var w' := Apply(w, OnDecision(w.rem, cid, StatusRejected, serial, docker));
    var drop := Did(Dropped(w.rem.active[cid].id, cid, w.rem.active[cid].action));
    assert w'.trace == w.trace + [drop];
    ForgetKeepsMap(w, cid, [drop]);
    RunsSnoc(w.trace, drop);
    forall id: nat
      ensures EntryInv(w', id)
    {
      assert EntryInv(w, id);
      SheetSnoc(w.trace, drop, id);
      ForgetKeepsEntries(w, cid, Idle, id);
      assert w.rem.active[cid].id == id ==> IsActive(w.rem, id);
    }
  }

  /** An entry comes under the decision handler, with whatever the step does to its sheet. */
  lemma {:induction false} TakenUp(w: World, cid: Cid, pending: Pending, id: nat)
    requires Books(w) && w.rem.pending == Idle && cid in w.rem.active
    requires pending != Idle && pending.entry == w.rem.active[cid]
    ensures
      var rem := w.rem.(pending := pending);
      && IsActive(rem, id) == IsActive(w.rem, id)
      && IsHandled(rem, id) == (w.rem.active[cid].id == id)
      && (w.rem.active[cid].id == id ==> IsActive(w.rem, id) && SheetOf(w.trace, id).executed == 0)
  {
    assert EntryInv(w, id);
  }

  lemma {:induction false} ExecutionKeepsBooks(w: World, cid: Cid, serial: nat, docker: Docker)
    requires Books(w) && w.rem.pending == Idle && Acts(w.rem, cid) && Execute(w.rem.active[cid].action, docker)
    ensures Books(Apply(w, OnDecision(w.rem, cid, StatusApproved, serial, docker)))
  {
    var w' := Apply(w, OnDecision(w.rem, cid, StatusApproved, serial, docker));
    var state := w.rem.active[cid];
    var run := Did(Executed(state.id, cid, state.action, true, serial));
    assert w'.trace == w.trace + [run];
    RunsSnoc(w.trace, run);
    forall id: nat
      ensures EntryInv(w', id)
    {
      assert EntryInv(w, id);
      SheetSnoc(w.trace, run, id);
      TakenUp(w, cid, w'.rem.pending, id);
    }
  }

  lemma {:induction false} FailureKeepsEntry(w: World, cid: Cid, serial: nat, docker: Docker, id: nat)
    requires Books(w) && w.rem.pending == Idle && Acts(w.rem, cid) && !Execute(w.rem.active[cid].action, docker)
    ensures EntryInv(Apply(w, OnDecision(w.rem, cid, StatusApproved, serial, docker)), id)
  {
    var state := w.rem.active[cid];
    var run := Did(Executed(state.id, cid, state.action, false, serial));
    var done := Did(Completed(state.id, cid, state.action, FailedExecution));
    var w' := Apply(w, OnDecision(w.rem, cid, StatusApproved, serial, docker));
    assert w'.trace == w.trace + [run] + [done];
    assert EntryInv(w, id);
    SheetSnocs(w.trace, run, done, id);
    TakenUp(w, cid, w'.rem.pending, id);
  }

  lemma {:induction false} FailureKeepsBooks(w: World, cid: Cid, serial: nat, docker: Docker)
    requires Books(w) && w.rem.pending == Idle && Acts(w.rem, cid) && !Execute(w.rem.active[cid].action, docker)
    ensures Books(Apply(w, OnDecision(w.rem, cid, StatusApproved, serial, docker)))
  {
    var w' := Apply(w, OnDecision(w.rem, cid, StatusApproved, serial, docker));
    var state := w.rem.active[cid];
    var run := Did(Executed(state.id, cid, state.action, false, serial));
    var done := Did(Completed(state.id, cid, state.action, FailedExecution));
    assert w'.trace == w.trace + [run] + [done];
    RunsSnoc(w.trace, run);
    RunsSnoc(w.trace + [run], done);
    forall id: nat
      ensures EntryInv(w', id)
    {
      FailureKeepsEntry(w, cid, serial, docker, id);
    }
  }

  lemma {:induction false} DecisionKeepsBooks(w: World, cid: Cid, status: Status, serial: nat, docker: Docker)
    requires Books(w) && w.rem.pending == Idle
    ensures Books(Apply(w, OnDecision(w.rem, cid, status, serial, docker)))
  {
    if cid in w.rem.active && status == StatusRejected {
      RejectionKeepsBooks(w, cid, serial, docker);
    } else if Acts(w.rem, cid) && status == StatusApproved {
      if Execute(w.rem.active[cid].action, docker) {
        ExecutionKeepsBooks(w, cid, serial, docker);
      } else {
        FailureKeepsBooks(w, cid, serial, docker);
      }
    } else {
      NothingKeepsBooks(w, Apply(w, OnDecision(w.rem, cid, status, serial, docker)));
    }
  }

  lemma {:induction false} NothingKeepsBooks(w: World, w': World)
    requires Books(w) && w'.rem == w.rem && w'.trace == w.trace
    ensures Books(w')
  {
    forall id: nat
      ensures EntryInv(w', id)
    {
      assert EntryInv(w, id);
    }
  }

  // --- Reporting ---------------------------------------------------------------------------------

  /** The sheet of an entry after a report: `verified` says that it is the one that the report is about. */
  function Reported(s: Sheet, verified: bool, verifyOk: bool): Sheet {
    if !verified then s
    else s.(completed := s.completed + 1, rolledBack := s.rolledBack + One(!verifyOk),
            unverified := s.unverified + One(!verifyOk))
  }

  lemma {:induction false} SheetSnocs(trace: seq<Happening>, h: Happening, k: Happening, id: nat)
    ensures SheetOf(trace + [h] + [k], id) == PostedTo(PostedTo(SheetOf(trace, id), h, id), k, id)
  {
    SheetSnoc(trace, h, id);
    SheetSnoc(trace + [h], k, id);
  }

  lemma {:induction false} SuccessSheet(w: World, id: nat)
    requires w.rem.pending.Verifying?
    ensures SheetOf(Apply(w, OnVerified(w.rem, true)).trace, id)
         == Reported(SheetOf(w.trace, id), IsVerified(w.rem, id), true)
  {
    var cid, state := w.rem.pending.cid, w.rem.pending.entry;
    var done := Did(Completed(state.id, cid, state.action, Success));
    assert Apply(w, OnVerified(w.rem, true)).trace == w.trace + [done];
    SheetSnoc(w.trace, done, id);
  }

  lemma {:induction false} RollbackSheet(w: World, id: nat)
    requires w.rem.pending.Verifying?
    ensures SheetOf(Apply(w, OnVerified(w.rem, false)).trace, id)
         == Reported(SheetOf(w.trace, id), IsVerified(w.rem, id), false)
  {
    var cid, state := w.rem.pending.cid, w.rem.pending.entry;
    var back := Did(RolledBack(state.id, cid, state.action, state.action.Undo()));
    var done := Did(Completed(state.id, cid, state.action, FailedVerification));
    assert Apply(w, OnVerified(w.rem, false)).trace == w.trace + [back] + [done];
    SheetSnocs(w.trace, back, done, id);
  }

  lemma {:induction false} ReportSheet(w: World, verifyOk: bool, id: nat)
    requires w.rem.pending.Verifying?
    ensures SheetOf(Apply(w, OnVerified(w.rem, verifyOk)).trace, id)
         == Reported(SheetOf(w.trace, id), IsVerified(w.rem, id), verifyOk)
  {
    if verifyOk {
      SuccessSheet(w, id);
    } else {
      RollbackSheet(w, id);
    }
  }

  lemma {:induction false} ReportKeepsEntry(w: World, verifyOk: bool, id: nat)
    requires Books(w) && w.rem.pending.Verifying?
    ensures EntryInv(Apply(w, OnVerified(w.rem, verifyOk)), id)
  {
    assert EntryInv(w, id);
    ReportSheet(w, verifyOk, id);
    assert IsActive(Apply(w, OnVerified(w.rem, verifyOk)).rem, id) == IsActive(w.rem, id);
  }

  lemma {:induction false} ReportKeepsBooks(w: World, verifyOk: bool)
    requires Books(w) && w.rem.pending.Verifying?
    ensures Books(Apply(w, OnVerified(w.rem, verifyOk)))
  {
    var w' := Apply(w, OnVerified(w.rem, verifyOk));
    var cid, state := w.rem.pending.cid, w.rem.pending.entry;
    var back := Did(RolledBack(state.id, cid, state.action, state.action.Undo()));
    var done := Did(Completed(state.id, cid, state.action, ResultOf(verifyOk)));
    var start := if verifyOk then w.trace else w.trace + [back];
    assert w'.trace == start + [done];
    RunsSnoc(w.trace, back);
    RunsSnoc(start, done);
    forall id: nat
      ensures EntryInv(w', id)
    {
      ReportKeepsEntry(w, verifyOk, id);
    }
  }

  lemma {:induction false} DeletionSheet(w: World, id: nat)
    requires PendingInv(w) && w.rem.pending.Reporting?
    ensures
      var s, current := SheetOf(w.trace, id), w.rem.active[w.rem.pending.cid].id == id;
      SheetOf(Apply(w, OnReported(w.rem)).trace, id) == s.(deleted := s.deleted + One(current))
  {
    var cid := w.rem.pending.cid;
    var gone := Did(Deleted(w.rem.active[cid].id, cid, w.rem.active[cid].action));
    assert Apply(w, OnReported(w.rem)).trace == w.trace + [gone];
    SheetSnoc(w.trace, gone, id);
  }

  lemma {:induction false} DeletionKeepsBooks(w: World)
    requires Books(w) && w.rem.pending.Reporting?
    ensures Books(Apply(w, OnReported(w.rem)))
  {
    var w', cid := Apply(w, OnReported(w.rem)), w.rem.pending.cid;
    var gone := Did(Deleted(w.rem.active[cid].id, cid, w.rem.active[cid].action));
    assert w'.trace == w.trace + [gone];
    ForgetKeepsMap(w, cid, [gone]);
    RunsSnoc(w.trace, gone);
    forall id: nat
      ensures EntryInv(w', id)
    {
      assert EntryInv(w, id);
      DeletionSheet(w, id);
      ForgetKeepsEntries(w, cid, Idle, id);
      assert w.rem.active[cid].id == id ==> IsActive(w.rem, id);
    }
  }

  lemma {:induction false} RestartKeepsBooks(c: Config, w: World)
    requires Books(w)
    ensures Books(RemediationProtocol.Next(c, w, Restart))
  {
    var w' := RemediationProtocol.Next(c, w, Restart);
    RunsSnoc(w.trace, Restarted(w.rem));
    forall id: nat
      ensures EntryInv(w', id)
    {
      assert EntryInv(w, id);
      SheetSnoc(w.trace, Restarted(w.rem), id);
    }
  }

  lemma {:induction false} ReviewKeepsBooks(c: Config, w: World, s: RemediationProtocol.Step)
    requires Books(w) && s.DeliverReview? && Enabled(c, w, s)
    ensures Books(RemediationProtocol.Next(c, w, s))
  {
    var w' := RemediationProtocol.Next(c, w, s);
    var h := w'.trace[|w.trace|];
    assert w'.trace == w.trace + [h];
    RunsSnoc(w.trace, h);
    forall id: nat
      ensures EntryInv(w', id)
    {
      assert EntryInv(w, id);
      SheetSnoc(w.trace, h, id);
    }
  }

  lemma {:induction false} StepKeepsBooks(c: Config, w: World, s: RemediationProtocol.Step)
    requires Books(w) && Enabled(c, w, s)
    ensures Books(RemediationProtocol.Next(c, w, s))
  {
    match s {
      case Diagnose(_, _) => NothingKeepsBooks(w, RemediationProtocol.Next(c, w, s));
      case DeliverDiagnosis(cid, d) => DiagnosisKeepsBooks(w, c.plan, cid, d);
      case DeliverReview(_, _, _, _, _) => ReviewKeepsBooks(c, w, s);
      case DeliverDecision(cid, status, serial, docker) =>
        DecisionKeepsBooks(w, cid, status, serial, docker);
        NothingKeepsBooks(Apply(w, OnDecision(w.rem, cid, status, serial, docker)), RemediationProtocol.Next(c, w, s));
      case Verify(ok) => ReportKeepsBooks(w, ok);
      case Acknowledge => DeletionKeepsBooks(w);
      case Restart => RestartKeepsBooks(c, w);
    }
  }

  lemma {:induction false} FollowsKeepsBooks(c: Config, w: World, w': World)
    requires Books(w) && Follows(c, w, w')
    ensures Books(w')
  {
    var s :| Enabled(c, w, s) && w' == RemediationProtocol.Next(c, w, s);
    StepKeepsBooks(c, w, s);
  }

  lemma {:induction false} BooksAreEmpty()
    ensures Books(START)
  {}

  lemma {:induction false} BooksAreKept(c: Config, ws: seq<World>)
    requires IsRun(c, ws)
    ensures Books(ws[|ws| - 1])
  {
    if |ws| > 1 {
      FrontIsRun(c, ws);
      BooksAreKept(c, ws[..|ws| - 1]);
      FollowsKeepsBooks(c, ws[|ws| - 2], ws[|ws| - 1]);
    } else {
      BooksAreEmpty();
    }
  }

  // --- One fate each -----------------------------------------------------------------------------

  datatype Fate = Waiting | InVerification | Superseded | Declined | Answered | Lost | Forgotten | Interrupted

  /** Waiting for a decision; executed and not reported yet; overwritten, or dropped, unexecuted; executed and
      reported; deleted unexecuted after the report of another entry; forgotten unexecuted by a restart; executed
      and never reported because of a restart. */
  predicate Meets(s: Sheet, active: bool, verified: bool, fate: Fate) {
    match fate
    case Waiting => active && s.executed == 0
    case InVerification => verified && s.executed == 1 && s.completed == 0
    case Superseded => s.overwritten == 1 && s.executed == 0
    case Declined => s.dropped == 1
    case Answered => s.executed == 1 && s.completed == 1 && s.rolledBack == s.unverified <= 1
    case Lost => s.deleted == 1 && s.executed == 0
    case Forgotten => s.forgotten == 1 && s.executed == 0
    case Interrupted => s.executed == 1 && s.completed == 0 && s.interrupted == 1
  }

  ghost predicate HasFate(w: World, id: nat, fate: Fate) {
    Meets(SheetOf(w.trace, id), IsActive(w.rem, id), IsVerified(w.rem, id), fate)
  }

  /** Which fate it is, decided by the sheet. */
  function FateOn(s: Sheet, active: bool, verified: bool): Fate {
    if s.executed > 0 then if verified then InVerification else if s.completed > 0 then Answered else Interrupted
    else if active then Waiting
    else if s.overwritten > 0 then Superseded
    else if s.dropped > 0 then Declined
    else if s.deleted > 0 then Lost
    else Forgotten
  }

  lemma {:induction false} MeetsIff(s: Sheet, known: bool, active: bool, handled: bool, verified: bool, fate: Fate)
    requires Proper(s, known, active, handled, verified)
    ensures Meets(s, active, verified, fate) <==> known && fate == FateOn(s, active, verified)
  {}

  /** A stored proposal has exactly one fate, and nothing else has any. */
  ghost predicate OneFate(w: World, id: nat) {
    && (id < w.rem.stored ==> exists fate :: HasFate(w, id, fate))
    && (forall fate :: HasFate(w, id, fate) ==> id < w.rem.stored)
    && (forall f, g :: HasFate(w, id, f) && HasFate(w, id, g) ==> f == g)
  }

  ghost predicate AllHaveOneFate(w: World) {
    forall id: nat :: OneFate(w, id)
  }

  lemma {:induction false} ProperHasOneFate(w: World, id: nat)
    requires EntryInv(w, id)
    ensures OneFate(w, id)
  {
    var s, active, verified := SheetOf(w.trace, id), IsActive(w.rem, id), IsVerified(w.rem, id);
    forall fate
      ensures HasFate(w, id, fate) <==> id < w.rem.stored && fate == FateOn(s, active, verified)
    {
      MeetsIff(s, id < w.rem.stored, active, IsHandled(w.rem, id), verified, fate);
    }
    assert id < w.rem.stored ==> HasFate(w, id, FateOn(s, active, verified));
  }

  /** In every run every stored proposal has exactly one fate. */
  lemma {:induction false} OneFateEach(c: Config, ws: seq<World>)
    requires IsRun(c, ws)
    ensures AllHaveOneFate(ws[|ws| - 1])
  {
    BooksAreKept(c, ws);
    var w := ws[|ws| - 1];
    forall id: nat
      ensures OneFate(w, id)
    {
      assert EntryInv(w, id);
      ProperHasOneFate(w, id);
    }
  }

  ghost function WithFate(w: World, fate: Fate): set<nat> {
    set id | 0 <= id < w.rem.stored && HasFate(w, id, fate)
  }

  lemma {:induction false} FatesAreApart(w: World, f: Fate, g: Fate)
    requires f != g && AllHaveOneFate(w)
    ensures WithFate(w, f) !! WithFate(w, g)
  {
    forall id: nat
      ensures !(id in WithFate(w, f) && id in WithFate(w, g))
    {
      assert OneFate(w, id);
    }
  }

  function UpTo(n: nat): (s: set<nat>)
    ensures |s| == n && forall k: nat :: k in s <==> k < n
  {
    if n == 0 then {} else UpTo(n - 1) + {n - 1}
  }

  ghost function CountAll(w: World, fates: seq<Fate>): nat {
    if fates == [] then 0 else CountAll(w, fates[..|fates| - 1]) + |WithFate(w, fates[|fates| - 1])|
  }

  ghost function UnionAll(w: World, fates: seq<Fate>): set<nat> {
    if fates == [] then {} else UnionAll(w, fates[..|fates| - 1]) + WithFate(w, fates[|fates| - 1])
  }

  lemma {:induction false} UnionMember(w: World, fates: seq<Fate>, id: nat)
    ensures id in UnionAll(w, fates) <==> exists i :: 0 <= i < |fates| && id in WithFate(w, fates[i])
  {
    if fates != [] {
      UnionMember(w, fates[..|fates| - 1], id);
    }
  }

  lemma {:induction false} CountsAddUp(w: World, fates: seq<Fate>)
    requires AllHaveOneFate(w)
    requires forall i, j :: 0 <= i < j < |fates| ==> fates[i] != fates[j]
    ensures CountAll(w, fates) == |UnionAll(w, fates)|
  {
    if fates != [] {
      var front, last := fates[..|fates| - 1], fates[|fates| - 1];
      CountsAddUp(w, front);
      forall i | 0 <= i < |front|
        ensures WithFate(w, front[i]) !! WithFate(w, last)
      {
        FatesAreApart(w, front[i], last);
      }
      forall id: nat
        ensures !(id in UnionAll(w, front) && id in WithFate(w, last))
      {
        UnionMember(w, front, id);
      }
      assert UnionAll(w, front) !! WithFate(w, last);
    }
  }

  const FATES: seq<Fate> := [Waiting, InVerification, Superseded, Declined, Answered, Lost, Forgotten, Interrupted]

  /** In every run the proposals stored are those that wait, those in verification, the superseded, the declined,
      the answered, the lost, and what restarts made forgotten or interrupted, counted once each. */
  lemma {:induction false} FatesAddUp(c: Config, ws: seq<World>)
    requires IsRun(c, ws)
    ensures ws[|ws| - 1].rem.stored == CountAll(ws[|ws| - 1], FATES)
  {
    var w := ws[|ws| - 1];
    OneFateEach(c, ws);
    CountsAddUp(w, FATES);
    forall id: nat
      ensures id in UnionAll(w, FATES) <==> id in UpTo(w.rem.stored)
    {
      UnionMember(w, FATES, id);
      assert OneFate(w, id);
      if id < w.rem.stored {
        var fate :| HasFate(w, id, fate);
        EveryFateIsListed(fate);
        assert id in WithFate(w, fate);
      }
    }
    assert UnionAll(w, FATES) == UpTo(w.rem.stored);
  }

  lemma {:induction false} EveryFateIsListed(fate: Fate)
    ensures exists i :: 0 <= i < |FATES| && FATES[i] == fate
  {
    assert FATES[0] == Waiting && FATES[1] == InVerification && FATES[2] == Superseded;
    assert FATES[3] == Declined && FATES[4] == Answered && FATES[5] == Lost;
    assert FATES[6] == Forgotten && FATES[7] == Interrupted;
  }

  // --- How fates change --------------------------------------------------------------------------

  predicate IsFinal(fate: Fate) {
    fate != Waiting && fate != InVerification
  }

  ghost predicate Grown(s: Sheet, t: Sheet) {
    && s.stored <= t.stored && s.overwritten <= t.overwritten && s.dropped <= t.dropped && s.executed <= t.executed
    && s.completed <= t.completed && s.deleted <= t.deleted && s.forgotten <= t.forgotten
    && s.interrupted <= t.interrupted
  }

  lemma {:induction false} PostingGrows(s: Sheet, h: Happening, id: nat)
    ensures Grown(s, PostedTo(s, h, id))
  {}

  lemma {:induction false} SheetGrowsByOne(trace: seq<Happening>, h: Happening, id: nat)
    ensures Grown(SheetOf(trace, id), SheetOf(trace + [h], id))
  {
    SheetSnoc(trace, h, id);
    PostingGrows(SheetOf(trace, id), h, id);
  }

  lemma {:induction false} GrownTwice(s: Sheet, t: Sheet, u: Sheet)
    requires Grown(s, t) && Grown(t, u)
    ensures Grown(s, u)
  {}

  lemma {:induction false} SheetGrows(trace: seq<Happening>, more: seq<Happening>, id: nat)
    ensures Grown(SheetOf(trace, id), SheetOf(trace + more, id))
  {
    if more == [] {
      assert trace + more == trace;
    } else {
      var front, last := more[..|more| - 1], more[|more| - 1];
      SheetGrows(trace, front, id);
      SheetGrowsByOne(trace + front, last, id);
      GrownTwice(SheetOf(trace, id), SheetOf(trace + front, id), SheetOf(trace + front + [last], id));
      assert trace + more == trace + front + [last];
    }
  }

  lemma {:induction false} UntouchedRuns(trace: seq<Happening>, ds: seq<Deed>, id: nat)
    requires forall i :: 0 <= i < |ds| ==> !(ds[i].Executed? && ds[i].id == id)
    ensures SheetOf(trace + Deeds(ds), id).executed == SheetOf(trace, id).executed
  {
    if ds == [] {
      assert trace + Deeds(ds) == trace;
    } else {
      var front, last := ds[..|ds| - 1], ds[|ds| - 1];
      UntouchedRuns(trace, front, id);
      SheetSnoc(trace + Deeds(front), Did(last), id);
      assert trace + Deeds(ds) == trace + Deeds(front) + [Did(last)];
    }
  }

  /** Only what the map holds is executed. */
  lemma {:induction false} RunsOnlyActive(c: Config, w: World, s: RemediationProtocol.Step, id: nat)
    requires Enabled(c, w, s) && !IsActive(w.rem, id)
    ensures SheetOf(RemediationProtocol.Next(c, w, s).trace, id).executed == SheetOf(w.trace, id).executed
  {
    match s {
      case Diagnose(_, _) =>
      case DeliverDiagnosis(cid, d) => UntouchedRuns(w.trace, OnDiagnosis(w.rem, c.plan, cid, d).deeds, id);
      case DeliverReview(_, _, _, _, _) =>
        SheetSnoc(w.trace, RemediationProtocol.Next(c, w, s).trace[|w.trace|], id);
      case DeliverDecision(cid, status, serial, docker) =>
        UntouchedRuns(w.trace, OnDecision(w.rem, cid, status, serial, docker).deeds, id);
      case Verify(ok) => UntouchedRuns(w.trace, OnVerified(w.rem, ok).deeds, id);
      case Acknowledge => UntouchedRuns(w.trace, OnReported(w.rem).deeds, id);
      case Restart => SheetSnoc(w.trace, Restarted(w.rem), id);
    }
  }

  lemma {:induction false} StepGrows(c: Config, w: World, s: RemediationProtocol.Step, id: nat)
    requires Enabled(c, w, s)
    ensures Grown(SheetOf(w.trace, id), SheetOf(RemediationProtocol.Next(c, w, s).trace, id))
  {
    var w' := RemediationProtocol.Next(c, w, s);
    SheetGrows(w.trace, w'.trace[|w.trace|..], id);
    assert w'.trace == w.trace + w'.trace[|w.trace|..];
  }

  /** A proposal in verification is answered or interrupted next; every other fate but waiting stays for good. */
  ghost predicate FateMoves(f: Fate, g: Fate) {
    && (IsFinal(f) ==> g == f)
    && (f == InVerification ==> g == InVerification || g == Answered || g == Interrupted)
  }

  lemma {:induction false} ProperMoves(w: World, w': World, id: nat, f: Fate, g: Fate)
    requires EntryInv(w, id) && EntryInv(w', id) && HasFate(w, id, f) && HasFate(w', id, g)
    requires Grown(SheetOf(w.trace, id), SheetOf(w'.trace, id))
    requires !IsActive(w.rem, id) ==> SheetOf(w'.trace, id).executed == SheetOf(w.trace, id).executed
    ensures FateMoves(f, g)
  {}

  lemma {:induction false} FollowsMovesFate(c: Config, w: World, w': World, id: nat, f: Fate, g: Fate)
    requires Books(w) && Follows(c, w, w') && HasFate(w, id, f) && HasFate(w', id, g)
    ensures FateMoves(f, g)
  {
    var s :| Enabled(c, w, s) && w' == RemediationProtocol.Next(c, w, s);
    StepKeepsBooks(c, w, s);
    assert EntryInv(w, id) && EntryInv(w', id);
    StepGrows(c, w, s, id);
    if !IsActive(w.rem, id) {
      RunsOnlyActive(c, w, s, id);
    }
    ProperMoves(w, w', id, f, g);
  }

  lemma {:induction false} StoredGrows(c: Config, w: World, w': World)
    requires Follows(c, w, w')
    ensures w.rem.stored <= w'.rem.stored
  {
    var s :| Enabled(c, w, s) && w' == RemediationProtocol.Next(c, w, s);
  }

  /** `id` is known, and whatever fate it has, `f` can lead to it. */
  ghost predicate ComesFrom(w: World, id: nat, f: Fate) {
    id < w.rem.stored && forall g :: HasFate(w, id, g) ==> FateMoves(f, g)
  }

  lemma {:induction false} FateComesFromItself(w: World, id: nat, f: Fate)
    requires Books(w) && HasFate(w, id, f)
    ensures ComesFrom(w, id, f)
  {
    assert EntryInv(w, id);
    ProperHasOneFate(w, id);
  }

  lemma {:induction false} FollowsKeepsOrigin(c: Config, w: World, w': World, id: nat, f: Fate)
    requires Books(w) && Follows(c, w, w') && ComesFrom(w, id, f)
    ensures ComesFrom(w', id, f)
  {
    StoredGrows(c, w, w');
    assert EntryInv(w, id);
    ProperHasOneFate(w, id);
    var h :| HasFate(w, id, h);
    forall g | HasFate(w', id, g)
      ensures FateMoves(f, g)
    {
      FollowsMovesFate(c, w, w', id, h, g);
    }
  }

  ghost predicate Since(ws: seq<World>, p: World -> bool) {
    ws != [] && (p(ws[|ws| - 1]) || Since(ws[..|ws| - 1], p))
  }

  lemma {:induction false} SinceAt(ws: seq<World>, i: nat, p: World -> bool)
    requires i < |ws| && p(ws[i])
    ensures Since(ws, p)
  {
    if i < |ws| - 1 {
      SinceAt(ws[..|ws| - 1], i, p);
    }
  }

  /** What every step keeps while the books are kept holds from any world of a run to its end. */
  lemma {:induction false} KeptSince(c: Config, ws: seq<World>, p: World -> bool)
    requires IsRun(c, ws) && Since(ws, p)
    requires forall w, w' :: Follows(c, w, w') && Books(w) && p(w) ==> p(w')
    ensures p(ws[|ws| - 1])
  {
    if |ws| > 1 && Since(ws[..|ws| - 1], p) {
      FrontIsRun(c, ws);
      KeptSince(c, ws[..|ws| - 1], p);
      BooksAreKept(c, ws[..|ws| - 1]);
    }
  }

  /** In every run a fate once final is final, and what is being verified ends answered or interrupted. */
  lemma {:induction false} FatesMoveForward(c: Config, ws: seq<World>, i: nat, id: nat, f: Fate)
    requires IsRun(c, ws) && i < |ws| && HasFate(ws[i], id, f)
    ensures ComesFrom(ws[|ws| - 1], id, f)
  {
    BooksOfPrefix(c, ws, i);
    FateComesFromItself(ws[i], id, f);
    forall w, w' | Follows(c, w, w') && Books(w) && ComesFrom(w, id, f)
      ensures ComesFrom(w', id, f)
    {
      FollowsKeepsOrigin(c, w, w', id, f);
    }
    SinceAt(ws, i, w => ComesFrom(w, id, f));
    KeptSince(c, ws, w => ComesFrom(w, id, f));
  }

  lemma {:induction false} BooksOfPrefix(c: Config, ws: seq<World>, i: nat)
    requires IsRun(c, ws) && i < |ws|
    ensures Books(ws[i])
  {
    var front := ws[..i + 1];
    forall j | 0 <= j < |front| - 1
      ensures Follows(c, front[j], front[j + 1])
    {
      assert Follows(c, ws[j], ws[j + 1]);
    }
    BooksAreKept(c, front);
  }

  /** A restart forgets exactly what waits, and interrupts exactly what is being verified. */
  lemma {:induction false} RestartForgetsIff(c: Config, ws: seq<World>, id: nat)
    requires IsRun(c, ws)
    ensures
      var w, w' := ws[|ws| - 1], RemediationProtocol.Next(c, ws[|ws| - 1], Restart);
      && (HasFate(w', id, Forgotten) <==> HasFate(w, id, Forgotten) || HasFate(w, id, Waiting))
      && (HasFate(w', id, Interrupted) <==> HasFate(w, id, Interrupted) || HasFate(w, id, InVerification))
  {
    BooksAreKept(c, ws);
    var w := ws[|ws| - 1];
    assert EntryInv(w, id);
    SheetSnoc(w.trace, Restarted(w.rem), id);
  }

  /** What is executed in any run is the action that was stored under the same correlation id, and the deletion at
      the end of the decision handler finds an entry. */
  lemma {:induction false} ExecutesWhatWasStored(c: Config, ws: seq<World>)
    requires IsRun(c, ws)
    ensures RunsWhatIsStored(ws[|ws| - 1].trace)
    ensures
      var rem := ws[|ws| - 1].rem;
      rem.pending != Idle ==> rem.pending.cid in rem.active
  {
    BooksAreKept(c, ws);
  }

  // --- The order of a report ---------------------------------------------------------------------

  ghost predicate WasRun(trace: seq<Happening>, id: nat, cid: Cid, a: Action, ok: bool) {
    exists n: nat :: Did(Executed(id, cid, a, ok, n)) in trace
  }

  /** A report names an action that was run for that entry, with the result of the run; before the report of a
      failed verification the action was rolled back with what it defines for that. */
  ghost predicate ReportedInOrder(before: seq<Happening>, h: Happening) {
    h.Did? && h.deed.Completed? ==>
      && WasRun(before, h.deed.id, h.deed.cid, h.deed.action, h.deed.result != FailedExecution)
      && (h.deed.result == FailedVerification ==>
          Did(RolledBack(h.deed.id, h.deed.cid, h.deed.action, h.deed.action.Undo())) in before)
  }

  ghost predicate Orderly(trace: seq<Happening>) {
    forall k :: 0 <= k < |trace| ==> ReportedInOrder(trace[..k], trace[k])
  }

  ghost predicate AwaitedRan(w: World) {
    w.rem.pending.Verifying? ==>
      WasRun(w.trace, w.rem.pending.entry.id, w.rem.pending.cid, w.rem.pending.entry.action, true)
  }

  lemma {:induction false} OrderlySnoc(trace: seq<Happening>, h: Happening)
    requires Orderly(trace) && ReportedInOrder(trace, h)
    ensures Orderly(trace + [h])
  {
    var all := trace + [h];
    forall k | 0 <= k < |all|
      ensures ReportedInOrder(all[..k], all[k])
    {
      assert trace[..|trace|] == trace;
      assert all[..k] == trace[..k];
    }
  }

  lemma {:induction false} RunStays(trace: seq<Happening>, more: seq<Happening>, id: nat, cid: Cid, a: Action, ok: bool)
    requires WasRun(trace, id, cid, a, ok)
    ensures WasRun(trace + more, id, cid, a, ok)
  {
    var n: nat :| Did(Executed(id, cid, a, ok, n)) in trace;
    assert Did(Executed(id, cid, a, ok, n)) in trace + more;
  }

  lemma {:induction false} QuietIsOrderly(trace: seq<Happening>, ds: seq<Deed>)
    requires Orderly(trace) && forall i :: 0 <= i < |ds| ==> !ds[i].Completed?
    ensures Orderly(trace + Deeds(ds))
  {
    if ds == [] {
      assert trace + Deeds(ds) == trace;
    } else {
      var front, last := ds[..|ds| - 1], ds[|ds| - 1];
      QuietIsOrderly(trace, front);
      assert trace + Deeds(ds) == trace + Deeds(front) + [Did(last)];
      OrderlySnoc(trace + Deeds(front), Did(last));
    }
  }

  lemma {:induction false} FailureIsOrderly(w: World, cid: Cid, serial: nat, docker: Docker)
    requires Orderly(w.trace) && Acts(w.rem, cid) && !Execute(w.rem.active[cid].action, docker)
    ensures Orderly(Apply(w, OnDecision(w.rem, cid, StatusApproved, serial, docker)).trace)
  {
    var state := w.rem.active[cid];
    var run := Did(Executed(state.id, cid, state.action, false, serial));
    var done := Did(Completed(state.id, cid, state.action, FailedExecution));
    assert run in w.trace + [run];
    OrderlySnoc(w.trace, run);
    OrderlySnoc(w.trace + [run], done);
    assert Apply(w, OnDecision(w.rem, cid, StatusApproved, serial, docker)).trace == w.trace + [run] + [done];
  }

  lemma {:induction false} ReportIsOrderly(w: World, verifyOk: bool)
    requires Orderly(w.trace) && w.rem.pending.Verifying? && AwaitedRan(w)
    ensures Orderly(Apply(w, OnVerified(w.rem, verifyOk)).trace)
  {
    var cid, state := w.rem.pending.cid, w.rem.pending.entry;
    var back := Did(RolledBack(state.id, cid, state.action, state.action.Undo()));
    var done := Did(Completed(state.id, cid, state.action, ResultOf(verifyOk)));
    var start := if verifyOk then w.trace else w.trace + [back];
    OrderlySnoc(w.trace, back);
    RunStays(w.trace, [back], state.id, cid, state.action, true);
    OrderlySnoc(start, done);
    assert Apply(w, OnVerified(w.rem, verifyOk)).trace == start + [done];
  }

  lemma {:induction false} DecisionIsOrderly(w: World, cid: Cid, status: Status, serial: nat, docker: Docker)
    requires Orderly(w.trace) && w.rem.pending == Idle
    ensures
      var w' := Apply(w, OnDecision(w.rem, cid, status, serial, docker));
      Orderly(w'.trace) && AwaitedRan(w')
  {
    var e := OnDecision(w.rem, cid, status, serial, docker);
    var w' := Apply(w, e);
    if e.rem.pending.Reporting? {
      FailureIsOrderly(w, cid, serial, docker);
    } else {
      QuietIsOrderly(w.trace, e.deeds);
      if e.rem.pending.Verifying? {
        assert w'.trace[|w.trace|] == Did(Executed(w.rem.active[cid].id, cid, w.rem.active[cid].action, true, serial));
        assert w'.trace[|w.trace|] in w'.trace;
      }
    }
  }

  lemma {:induction false} QuietStepIsOrderly(w: World, e: Effect)
    requires Orderly(w.trace) && AwaitedRan(w) && (e.rem.pending.Verifying? ==> e.rem.pending == w.rem.pending)
    requires forall i :: 0 <= i < |e.deeds| ==> !e.deeds[i].Completed?
    ensures Orderly(Apply(w, e).trace) && AwaitedRan(Apply(w, e))
  {
    QuietIsOrderly(w.trace, e.deeds);
    if w.rem.pending.Verifying? {
      var cid, state := w.rem.pending.cid, w.rem.pending.entry;
      RunStays(w.trace, Deeds(e.deeds), state.id, cid, state.action, true);
    }
  }

  lemma {:induction false} ReviewIsOrderly(c: Config, w: World, s: RemediationProtocol.Step)
    requires Orderly(w.trace) && AwaitedRan(w) && s.DeliverReview? && Enabled(c, w, s)
    ensures var w' := RemediationProtocol.Next(c, w, s); Orderly(w'.trace) && AwaitedRan(w')
  {
    var w' := RemediationProtocol.Next(c, w, s);
    var h := w'.trace[|w.trace|];
    assert w'.trace == w.trace + [h];
    OrderlySnoc(w.trace, h);
    if w.rem.pending.Verifying? {
      var cid, state := w.rem.pending.cid, w.rem.pending.entry;
      RunStays(w.trace, [h], state.id, cid, state.action, true);
    }
  }

  lemma {:induction false} FollowsKeepsOrder(c: Config, w: World, w': World)
    requires Orderly(w.trace) && AwaitedRan(w) && Follows(c, w, w')
    ensures Orderly(w'.trace) && AwaitedRan(w')
  {
    var s :| Enabled(c, w, s) && w' == RemediationProtocol.Next(c, w, s);
    match s {
      case Diagnose(_, _) =>
      case DeliverDiagnosis(cid, d) => QuietStepIsOrderly(w, OnDiagnosis(w.rem, c.plan, cid, d));
      case DeliverReview(_, _, _, _, _) => ReviewIsOrderly(c, w, s);
      case DeliverDecision(cid, status, serial, docker) => DecisionIsOrderly(w, cid, status, serial, docker);
      case Verify(ok) => ReportIsOrderly(w, ok);
      case Acknowledge => QuietStepIsOrderly(w, OnReported(w.rem));
      case Restart => OrderlySnoc(w.trace, Restarted(w.rem));
    }
  }

  /** In every run every report follows the run of its action and tells how it went, and the report of a failed
      verification follows a rollback. */
  lemma {:induction false} ReportsInOrder(c: Config, ws: seq<World>)
    requires IsRun(c, ws)
    ensures Orderly(ws[|ws| - 1].trace) && AwaitedRan(ws[|ws| - 1])
  {
    if |ws| > 1 {
      FrontIsRun(c, ws);
      ReportsInOrder(c, ws[..|ws| - 1]);
      FollowsKeepsOrder(c, ws[|ws| - 2], ws[|ws| - 1]);
    }
  }

  // --- Exactly when a proposal is lost -----------------------------------------------------------

  /** The decision handler executes `state` for `cid` in step `e` and is at work until step `t`, in which the report
      of it is acknowledged. */
  ghost predicate Handles(ws: seq<World>, ss: seq<RemediationProtocol.Step>, e: nat, t: nat, cid: Cid,
                          state: InFlight) {
    && e < t < |ss| && |ws| == |ss| + 1
    && ws[e].rem.pending == Idle && IsAt(ws[e + 1], cid, state)
    && forall j :: e < j < t ==> !ss[j].Acknowledge? && !ss[j].Restart?
  }

  ghost predicate IsAt(w: World, cid: Cid, state: InFlight) {
    w.rem.pending == Verifying(cid, state) || w.rem.pending == Reporting(cid, state)
  }

  /** A diagnosis for `cid` that finds a runbook. */
  predicate Proposes(c: Config, s: RemediationProtocol.Step, cid: Cid) {
    s.DeliverDiagnosis? && s.cid == cid && c.plan(s.diagnosis).Some?
  }

  lemma {:induction false} WhileHandling(c: Config, w: World, s: RemediationProtocol.Step, cid: Cid, state: InFlight)
    requires Books(w) && Enabled(c, w, s) && IsAt(w, cid, state) && !s.Acknowledge? && !s.Restart?
    ensures
      var w' := RemediationProtocol.Next(c, w, s);
      && IsAt(w', cid, state) && cid in w'.rem.active && cid in w.rem.active
      && (w'.rem.active[cid].id != state.id <==> w.rem.active[cid].id != state.id || Proposes(c, s, cid))
  {
    assert state.id <= w.rem.active[cid].id < w.rem.stored;
  }

  ghost predicate ReplacedBy(c: Config, ss: seq<RemediationProtocol.Step>, e: nat, t: nat, cid: Cid) {
    exists j :: e < j < t && j < |ss| && Proposes(c, ss[j], cid)
  }

  /** The map holds an entry for the correlation id in work: another one exactly if there was a proposal since. */
  ghost predicate HoldsEntry(c: Config, w: World, ss: seq<RemediationProtocol.Step>, e: nat, t: nat, cid: Cid,
                             state: InFlight) {
    && IsAt(w, cid, state) && cid in w.rem.active
    && (w.rem.active[cid].id != state.id <==> ReplacedBy(c, ss, e, t, cid))
  }

  lemma {:induction false} ReplacedNext(c: Config, ss: seq<RemediationProtocol.Step>, e: nat, t: nat, cid: Cid)
    requires e < t < |ss|
    ensures ReplacedBy(c, ss, e, t + 1, cid) <==> ReplacedBy(c, ss, e, t, cid) || Proposes(c, ss[t], cid)
  {}

  lemma {:induction false} EntryNext(c: Config, w: World, ss: seq<RemediationProtocol.Step>, e: nat, t: nat,
                                     cid: Cid, state: InFlight)
    requires e < t < |ss| && Books(w) && Enabled(c, w, ss[t]) && !ss[t].Acknowledge? && !ss[t].Restart? &&
      HoldsEntry(c, w, ss, e, t, cid, state)
    ensures HoldsEntry(c, RemediationProtocol.Next(c, w, ss[t]), ss, e, t + 1, cid, state)
  {
    WhileHandling(c, w, ss[t], cid, state);
    ReplacedNext(c, ss, e, t, cid);
  }

  lemma {:induction false} ReplacedIff(c: Config, ws: seq<World>, ss: seq<RemediationProtocol.Step>, e: nat, t: nat,
                                       cid: Cid, state: InFlight)
    requires IsLabelledRun(c, ws, ss) && Handles(ws, ss, e, t, cid, state)
    ensures HoldsEntry(c, ws[t], ss, e, t, cid, state)
    decreases t
  {
    if t == e + 1 {
      StartsWithItsEntry(c, ws[e], ss[e], cid, state);
    } else {
      ReplacedIff(c, ws, ss, e, t - 1, cid, state);
      BooksAt(c, ws, ss, t - 1);
      EntryNext(c, ws[t - 1], ss, e, t - 1, cid, state);
    }
  }

  lemma {:induction false} StartsWithItsEntry(c: Config, w: World, s: RemediationProtocol.Step, cid: Cid,
                                              state: InFlight)
    requires Enabled(c, w, s) && w.rem.pending == Idle && IsAt(RemediationProtocol.Next(c, w, s), cid, state)
    ensures
      var w' := RemediationProtocol.Next(c, w, s);
      cid in w'.rem.active && w'.rem.active[cid] == state
  {}

  lemma {:induction false} BooksAt(c: Config, ws: seq<World>, ss: seq<RemediationProtocol.Step>, i: nat)
    requires IsLabelledRun(c, ws, ss) && i < |ws|
    ensures Books(ws[i])
  {
    LabelledIsRun(c, ws, ss);
    BooksOfPrefix(c, ws, i);
  }

  /** The end of a decision handler deletes a proposal that was never executed exactly when a diagnosis for its
      correlation id found a runbook since the execution: while it was verified, or while the report of it, or of its
      failure, was on its way. */
  lemma {:induction false} LostIff(c: Config, ws: seq<World>, ss: seq<RemediationProtocol.Step>, e: nat, t: nat,
                                   cid: Cid, state: InFlight)
    requires IsLabelledRun(c, ws, ss) && Handles(ws, ss, e, t, cid, state) && ss[t].Acknowledge?
    ensures cid in ws[t].rem.active
    ensures HasFate(ws[t + 1], ws[t].rem.active[cid].id, Lost) <==> ReplacedBy(c, ss, e, t, cid)
  {
    ReplacedIff(c, ws, ss, e, t, cid, state);
    BooksAt(c, ws, ss, t);
    DeletionLoses(ws[t], cid, state);
    assert ws[t + 1] == RemediationProtocol.Next(c, ws[t], ss[t]);
  }

  lemma {:induction false} DeletionLoses(w: World, cid: Cid, state: InFlight)
    requires Books(w) && w.rem.pending == Reporting(cid, state) && cid in w.rem.active
    ensures HasFate(Apply(w, OnReported(w.rem)), w.rem.active[cid].id, Lost) <==> w.rem.active[cid].id != state.id
  {
    var id := w.rem.active[cid].id;
    DeletionSheet(w, id);
    assert EntryInv(w, id) && IsActive(w.rem, id);
  }

  lemma {:induction false} CalmLosesNothing(trace: seq<Happening>, id: nat)
    requires forall k :: 0 <= k < |trace| && trace[k].Did? ==> IsCalm(trace[k].deed)
    ensures SheetOf(trace, id).deleted == 0
  {
    if trace != [] {
      CalmLosesNothing(trace[..|trace| - 1], id);
    }
  }

  /** The report of an execution is on its way, and the diagnosis is delivered again meanwhile: the entry it makes
      is deleted at the end, and nobody waits for the answer to its proposal any more. */
  lemma {:induction false} ProposalLostWhileReporting(c: Config, cid: Cid, d: Diagnosis, e: Diagnosis)
    returns (ws: seq<World>)
    requires CanAct(c, cid, d, e)
    ensures IsRun(c, ws) && ws[|ws| - 1].rem == Rem(map[], Idle, 3)
    ensures HasFate(ws[|ws| - 1], 2, Lost)
  {
    ws := ReportingRun(c, cid, d, e);
    var w1, propose := ws[|ws| - 1], DeliverDiagnosis(cid, e);
    ExtendRun(c, ws, propose);
    var w2 := RemediationProtocol.Next(c, w1, propose);
    ws := ws + [w2];
    BooksAreKept(c, ws);
    DeletionLoses(w2, cid, w2.rem.pending.entry);
    ExtendRun(c, ws, Acknowledge);
    ws := ws + [RemediationProtocol.Next(c, w2, Acknowledge)];
  }

  /** Whatever the executor makes of an action with a type, it can be brought to its report. */
  lemma {:induction false} ReportingRun(c: Config, cid: Cid, d: Diagnosis, e: Diagnosis) returns (ws: seq<World>)
    requires CanAct(c, cid, d, e)
    ensures IsRun(c, ws)
    ensures
      var w := ws[|ws| - 1];
      && w.rem.pending.Reporting? && w.rem.pending.cid == cid && w.rem.pending.entry.id == 1
      && w.rem.active == map[cid := w.rem.pending.entry] && w.rem.stored == 2 && DiagnosisMsg(cid, e) in w.net
  {
    ws := ExecutingRun(c, cid, d, e, NoSuchContainer);
    var w := ws[|ws| - 1];
    if w.rem.pending.Verifying? {
      ExtendRun(c, ws, Verify(true));
      ws := ws + [RemediationProtocol.Next(c, w, Verify(true))];
    }
  }

  ghost predicate LosesAny(w: World) {
    exists id: nat :: HasFate(w, id, Lost)
  }

  /** No proposal is ever lost, in any run, exactly when nothing can be executed at all. */
  lemma {:induction false} NothingLostIff(c: Config)
    ensures (forall ws: seq<World> :: IsRun(c, ws) ==> !LosesAny(ws[|ws| - 1])) <==> !CanExecute(c)
  {
    if CanExecute(c) {
      var cid, d, e :| CanAct(c, cid, d, e);
      var ws := ProposalLostWhileReporting(c, cid, d, e);
      assert LosesAny(ws[|ws| - 1]);
    } else {
      forall ws: seq<World> | IsRun(c, ws)
        ensures !LosesAny(ws[|ws| - 1])
      {
        CalmRun(c, ws);
        var w := ws[|ws| - 1];
        forall id: nat
          ensures !HasFate(w, id, Lost)
        {
          CalmLosesNothing(w.trace, id);
        }
      }
    }
  }
}
