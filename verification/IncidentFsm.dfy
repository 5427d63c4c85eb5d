/** The lifecycle state machine of one incident, with its timeout clock and retry counter. */
module IncidentFsm {
  import opened Windows

  datatype State =
    | Detecting | Diagnosing | ProposingRemediation | SafetyReview | Executing | Verifying | Resolved | Closed

  function Successors(s: State): set<State> {
    match s
    case Detecting => {Diagnosing}
    case Diagnosing => {ProposingRemediation}
    case ProposingRemediation => {SafetyReview}
    case SafetyReview => {Executing, ProposingRemediation}
    case Executing => {Verifying, ProposingRemediation}
    case Verifying => {Resolved, Executing}
    case Resolved => {Closed}
    case Closed => {}
  }

  predicate IsTerminal(s: State) {
    s == Resolved || s == Closed
  }

  /** Terminal states do not time out. */
  function Timeout(s: State): Time
    requires !IsTerminal(s)
  {
    match s
    case Detecting => 120 * SECOND
    case Diagnosing => 180 * SECOND
    case ProposingRemediation => 120 * SECOND
    case SafetyReview => 300 * SECOND
    case Executing => 180 * SECOND
    case Verifying => 120 * SECOND
  }

  const MAX_RETRIES := 2

  datatype Change = Change(from: State, to: State, at: Time)

  /** What an incident's machine holds at one moment. */
  datatype Fsm = Fsm(state: State, enteredAt: Time, retries: int, history: seq<Change>) {
    predicate CanMove(target: State) {
      target in Successors(state)
    }

    predicate TimedOut(now: Time) {
      !IsTerminal(state) && now - enteredAt > Timeout(state)
    }

    predicate ShouldRetry() {
      retries < MAX_RETRIES
    }

    function Moved(target: State, now: Time): Fsm {
      Fsm(target, now, 0, history + [Change(state, target, now)])
    }

    function Retried(now: Time): Fsm {
      Fsm(state, now, retries + 1, history)
    }
  }

  class IncidentFSM {
    var state: State
    var stateEnteredAt: Time
    var retryCount: int
    var history: seq<Change>

    function View(): Fsm
      reads this
    {
      Fsm(state, stateEnteredAt, retryCount, history)
    }

    constructor (initialState: State, enteredAt: Time)
      ensures View() == Fsm(initialState, enteredAt, 0, [])
    {
      state, stateEnteredAt, retryCount, history := initialState, enteredAt, 0, [];
    }

    /** `false` stands for the error that an invalid transition raises. */
    method Transition(target: State, now: Time) returns (ok: bool)
      modifies this
      ensures ok == old(View()).CanMove(target)
      ensures View() == if ok then old(View()).Moved(target, now) else old(View())
    {
      if target !in Successors(state) {
        return false;
      }
      history := history + [Change(state, target, now)];
      state := target;
      stateEnteredAt := now;
      retryCount := 0;
      return true;
    }

    method IncrementRetry(now: Time) returns (count: int)
      modifies this
      ensures View() == old(View()).Retried(now)
      ensures count == retryCount
    {
      retryCount := retryCount + 1;
      stateEnteredAt := now;
      return retryCount;
    }
  }

  // --- What a machine driven by the orchestrator always satisfies --------------------------------

  /** The recorded changes form one path of allowed transitions that ends in the current state. */
  ghost predicate Unbroken(f: Fsm) {
    && (forall i :: 0 <= i < |f.history| ==> f.history[i].to in Successors(f.history[i].from))
    && (forall i :: 0 < i < |f.history| ==> f.history[i - 1].to == f.history[i].from)
    && (f.history != [] ==> f.history[|f.history| - 1].to == f.state)
  }

  /** The states the machine has been in, oldest first. */
  function Path(f: Fsm): (p: seq<State>)
    ensures |p| == |f.history| + 1
  {
    if f.history == [] then [f.state]
    else [f.history[0].from] + seq(|f.history|, i requires 0 <= i < |f.history| => f.history[i].to)
  }

  /** Verifying is left at once, and only for resolved; resolved is never left; and no machine starts there. */
  ghost predicate Disciplined(f: Fsm) {
    && f.state !in {Verifying, Closed}
    && (f.history != [] ==> f.history[0].from !in {Verifying, Resolved, Closed})
    && (f.history == [] ==> f.state != Resolved)
    && (forall i :: 0 <= i < |f.history| && f.history[i].to == Verifying ==>
          i + 1 < |f.history| && f.history[i + 1].to == Resolved)
    && (forall i :: 0 <= i < |f.history| && f.history[i].to == Resolved ==> i == |f.history| - 1)
    && (forall i :: 0 <= i < |f.history| ==> f.history[i].to != Closed)
  }

  ghost predicate Good(f: Fsm) {
    Unbroken(f) && Disciplined(f) && 0 <= f.retries <= MAX_RETRIES
  }

  lemma {:induction false} MovedKeepsGood(f: Fsm, target: State, now: Time)
    requires Good(f) && f.CanMove(target) && target !in {Verifying, Closed}
    ensures Good(f.Moved(target, now))
  {
    var f' := f.Moved(target, now);
    assert forall i :: 0 <= i < |f.history| ==> f'.history[i] == f.history[i];
    assert f.state != Resolved;
  }

  lemma {:induction false} VerifiedAndResolvedKeepsGood(f: Fsm, now: Time)
    requires Good(f) && f.CanMove(Verifying)
    ensures f.state == Executing && f.Moved(Verifying, now).CanMove(Resolved)
    ensures Good(f.Moved(Verifying, now).Moved(Resolved, now))
  {
    var f' := f.Moved(Verifying, now).Moved(Resolved, now);
    assert forall i :: 0 <= i < |f.history| ==> f'.history[i] == f.history[i];
  }

  const RESOLUTION: seq<State> := [ProposingRemediation, SafetyReview, Executing, Verifying, Resolved]

  function Shorter(a: nat, b: nat): nat {
    if a < b then a else b
  }

  /** A resolved incident got there by exactly proposal, review, execution, verification: its path ends
      with that sequence, as far back as it was recorded. */
  lemma {:induction false} ResolvedTail(f: Fsm)
    requires Good(f) && f.state == Resolved
    ensures
      var p := Path(f);
      var k := Shorter(|p|, 5);
      k >= 3 && p[|p| - k..] == RESOLUTION[5 - k..]
  {
    var h, n := f.history, |f.history|;
    assert h[n - 1].from == Verifying;
    assert n >= 2;
    assert h[n - 2].to == Verifying && h[n - 2].from == Executing;
    if n >= 3 {
      assert h[n - 3].to == Executing;
      assert h[n - 3].from == SafetyReview by {
        if n >= 4 {
          assert h[n - 4].to == h[n - 3].from;
        }
      }
    }
    if n >= 4 {
      assert h[n - 4].to == SafetyReview && h[n - 4].from == ProposingRemediation;
    }
    if n >= 5 {
      assert h[n - 5].to == ProposingRemediation;
    }
  }

  lemma {:induction false} TailStartsAtLastProposal(p: seq<State>, k: nat, i: nat)
    requires 3 <= k <= 5 && k <= |p| && (k < 5 ==> k == |p|) && p[|p| - k..] == RESOLUTION[5 - k..]
    requires i < |p| && p[i] == ProposingRemediation
    requires forall j :: i < j < |p| ==> p[j] != ProposingRemediation
    ensures k == 5 && i == |p| - 5
  {
    assert forall j :: |p| - k <= j < |p| ==> p[j] == p[|p| - k..][j - (|p| - k)] == RESOLUTION[5 - k..][j - (|p| - k)];
    assert k == 5 ==> p[|p| - 5] == ProposingRemediation;
  }

  /** After the last time a resolved incident was proposing, it went through exactly the rest of that sequence. */
  lemma {:induction false} ResolvedAfterLastProposal(f: Fsm, i: nat)
    requires Good(f) && f.state == Resolved
    requires i < |Path(f)| && Path(f)[i] == ProposingRemediation
    requires forall j :: i < j < |Path(f)| ==> Path(f)[j] != ProposingRemediation
    ensures Path(f)[i..] == RESOLUTION
  {
    ResolvedTail(f);
    var p := Path(f);
    TailStartsAtLastProposal(p, Shorter(|p|, 5), i);
  }
}
