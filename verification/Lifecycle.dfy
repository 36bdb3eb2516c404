/**
  `Run` and `Close` of runtime/runtime.go as a protocol: any number of callers, one step at a time.
  A section under the mutex is one step, and so are starting and ending the monitor body, calling
  `cancel`, receiving from a channel, releasing, and closing a channel.
*/
module Lifecycle {
  import opened Market

  type Caller = nat
  type RunId = nat
  /** What `release` returned. */
  type Failure = int

  // ---------- Callers ----------

  datatype Phase =
    | RunCalled
    | Registered(run: RunId)
    | Body(run: RunId)
    | BodyEnded(run: RunId)
    | Cleared(run: RunId)
    | RunReturned
    | RefusedClosed
    | RefusedRunning
    | CloseCalled
    | Closing(target: Option<RunId>, stop: Option<RunId>)
    | Stopped(target: Option<RunId>)
    | Joined
    | Released(failure: Failure)
    | Recorded(failure: Failure)
    | Waiting
    | CloseReturned(failure: Failure)

  /** The fields of the runtime, the channels that are closed, and what has happened so far. */
  datatype State = State(
    callers: map<Caller, Phase>,
    running: bool, cancel: Option<RunId>, runDone: Option<RunId>,
    closed: bool, closeErr: Option<Failure>, closedDone: bool,
    doneClosed: set<RunId>, canceled: set<RunId>, nextRun: RunId, releases: seq<Failure>)

  datatype Step =
    | CallRun(t: Caller)
    | CallClose(t: Caller)
    | EnterRun(t: Caller)
    | StartBody(t: Caller)
    | EndBody(t: Caller)
    | LeaveRun(t: Caller)
    | SignalDone(t: Caller)
    | EnterClose(t: Caller)
    | Cancel(t: Caller)
    | Join(t: Caller)
    | Release(t: Caller, failure: Failure)
    | Record(t: Caller)
    | SignalClosed(t: Caller)
    | Observe(t: Caller)

  function Initial(): State {
    State(map[], false, None, None, false, None, false, {}, {}, 0, [])
  }

  predicate At(s: State, t: Caller, p: Phase) {
    t in s.callers && s.callers[t] == p
  }

  /** Whether the step can be taken now; receiving from a channel waits until it is closed. */
  predicate Enabled(s: State, step: Step) {
    match step
    case CallRun(t) => t !in s.callers
    case CallClose(t) => t !in s.callers
    case EnterRun(t) => At(s, t, RunCalled)
    case StartBody(t) => t in s.callers && s.callers[t].Registered?
    case EndBody(t) => t in s.callers && s.callers[t].Body?
    case LeaveRun(t) => t in s.callers && s.callers[t].BodyEnded?
    case SignalDone(t) => t in s.callers && s.callers[t].Cleared?
    case EnterClose(t) => At(s, t, CloseCalled)
    case Cancel(t) => t in s.callers && s.callers[t].Closing?
    case Join(t) => t in s.callers && s.callers[t].Stopped?
      && (s.callers[t].target.None? || s.callers[t].target.value in s.doneClosed)
    case Release(t, _) => At(s, t, Joined)
    case Record(t) => t in s.callers && s.callers[t].Released?
    case SignalClosed(t) => t in s.callers && s.callers[t].Recorded?
    case Observe(t) => At(s, t, Waiting) && s.closedDone && s.closeErr.Some?
  }

  function Moved(s: State, t: Caller, p: Phase): State {
    s.(callers := s.callers[t := p])
  }

  function Apply(s: State, step: Step): State
    requires Enabled(s, step)
  {
    match step
    case CallRun(t) => Moved(s, t, RunCalled)
    case CallClose(t) => Moved(s, t, CloseCalled)
    case EnterRun(t) =>
      if s.closed then Moved(s, t, RefusedClosed)
      else if s.running then Moved(s, t, RefusedRunning)
      else
        Moved(s, t, Registered(s.nextRun)).(
          running := true, cancel := Some(s.nextRun), runDone := Some(s.nextRun), nextRun := s.nextRun + 1)
    case StartBody(t) => Moved(s, t, Body(s.callers[t].run))
    case EndBody(t) => Moved(s, t, BodyEnded(s.callers[t].run))
    case LeaveRun(t) =>
      Moved(s, t, Cleared(s.callers[t].run)).(
        running := false, cancel := None, runDone := None, canceled := s.canceled + {s.callers[t].run})
    case SignalDone(t) => Moved(s, t, RunReturned).(doneClosed := s.doneClosed + {s.callers[t].run})
    case EnterClose(t) =>
      if s.closed then Moved(s, t, Waiting)
      else Moved(s, t, Closing(s.runDone, s.cancel)).(closed := true)
    case Cancel(t) =>
      var stop := s.callers[t].stop;
      Moved(s, t, Stopped(s.callers[t].target)).(canceled := if stop.Some? then s.canceled + {stop.value}
        else s.canceled)
    case Join(t) => Moved(s, t, Joined)
    case Release(t, failure) => Moved(s, t, Released(failure)).(releases := s.releases + [failure])
    case Record(t) => Moved(s, t, Recorded(s.callers[t].failure)).(closeErr := Some(s.callers[t].failure))
    case SignalClosed(t) => Moved(s, t, CloseReturned(s.callers[t].failure)).(closedDone := true)
    case Observe(t) => Moved(s, t, CloseReturned(s.closeErr.value))
  }

  /** The state a sequence of steps leads to; nothing when one of them cannot be taken. */
  function After(steps: seq<Step>): Option<State> {
    if |steps| == 0 then Some(Initial())
    else
      var before, step := After(steps[..|steps| - 1]), steps[|steps| - 1];
      if before.Some? && Enabled(before.value, step) then Some(Apply(before.value, step)) else None
  }

  // ---------- The invariant ----------

  /** The caller's run holds the runtime: it has registered and not yet left. */
  predicate Active(p: Phase) {
    p.Registered? || p.Body? || p.BodyEnded?
  }

  predicate HasRun(p: Phase) {
    Active(p) || p.Cleared?
  }

  /** The one caller that found the runtime open. */
  predicate Closer(p: Phase) {
    p.Closing? || p.Stopped? || p.Joined? || p.Released? || p.Recorded?
  }

  /** The fields describe the one active run. */
  ghost predicate FieldsAgree(s: State) {
    && (forall t <- s.callers :: Active(s.callers[t]) ==>
          s.running && s.runDone == s.cancel == Some(s.callers[t].run))
    && (!s.running ==> s.runDone == s.cancel == None)
  }

  ghost predicate Held(s: State) {
    s.running ==> exists t :: t in s.callers && Active(s.callers[t])
  }

  predicate SameRun(p: Phase, q: Phase) {
    HasRun(p) && HasRun(q) && p.run == q.run
  }

  /** Runs have numbers of their own, and a run's channel is closed only after it has left. */
  ghost predicate RunsApart(s: State) {
    && (forall t <- s.callers :: HasRun(s.callers[t]) ==>
         s.callers[t].run < s.nextRun && s.callers[t].run !in s.doneClosed)
    && (forall t, u :: t in s.callers && u in s.callers && SameRun(s.callers[t], s.callers[u]) ==> t == u)
    && (forall r <- s.doneClosed :: r < s.nextRun)
  }

  ghost predicate RunsAgree(s: State) {
    FieldsAgree(s) && Held(s) && RunsApart(s)
  }

  /** What a caller's phase says about the shared state while the runtime closes. */
  predicate PhaseAgrees(s: State, p: Phase) {
    match p
    case Closing(_, _) => s.releases == [] && s.closeErr == None
    case Stopped(_) => s.releases == [] && s.closeErr == None
    case Joined => s.releases == [] && s.closeErr == None
    case Released(failure) => s.releases == [failure] && s.closeErr == None
    case Recorded(failure) => s.releases == [failure] && s.closeErr == Some(failure)
    case CloseReturned(failure) => s.closedDone && s.closeErr == Some(failure)
    case Waiting => s.closed
    case _ => true
  }

  ghost predicate OneCloser(s: State) {
    && (forall t <- s.callers :: Closer(s.callers[t]) ==> s.closed && !s.closedDone)
    && (forall t, u :: t in s.callers && u in s.callers && Closer(s.callers[t]) && Closer(s.callers[u]) ==> t == u)
  }

  ghost predicate HasCloser(s: State) {
    s.closed && !s.closedDone ==> exists t :: t in s.callers && Closer(s.callers[t])
  }

  /** How far closing has come. */
  ghost predicate Outcome(s: State) {
    && (!s.closed ==> !s.closedDone && s.closeErr == None && s.releases == [])
    && (s.closedDone ==> s.closed && s.closeErr.Some? && s.releases == [s.closeErr.value])
    && (forall t <- s.callers :: PhaseAgrees(s, s.callers[t]))
  }

  ghost predicate CloseAgrees(s: State) {
    OneCloser(s) && HasCloser(s) && Outcome(s)
  }

  /** A run still active when the runtime is closed is the one the closer waits for. */
  ghost predicate CloserWaits(s: State) {
    forall t, u :: t in s.callers && u in s.callers && Active(s.callers[t]) && s.closed ==>
      && !s.closedDone
      && (Closer(s.callers[u]) ==>
            || s.callers[u] == Closing(Some(s.callers[t].run), Some(s.callers[t].run))
            || s.callers[u] == Stopped(Some(s.callers[t].run)))
  }

  predicate Holds(s: State, t: Caller, run: RunId) {
    t in s.callers && HasRun(s.callers[t]) && s.callers[t].run == run
  }

  /** A run that was given out is still with its caller, or its channel is closed. */
  ghost predicate Accounted(s: State) {
    forall run: RunId :: run < s.nextRun && run !in s.doneClosed ==> exists t :: Holds(s, t, run)
  }

  predicate AwaitsKnown(s: State, p: Phase) {
    (p.Closing? || p.Stopped?) && p.target.Some? ==> p.target.value < s.nextRun
  }

  ghost predicate TargetsKnown(s: State) {
    forall t <- s.callers :: AwaitsKnown(s, s.callers[t])
  }

  ghost predicate Inv(s: State) {
    RunsAgree(s) && CloseAgrees(s) && CloserWaits(s) && Accounted(s) && TargetsKnown(s)
  }

  lemma InitialHolds()
    ensures Inv(Initial())
  {
  }

  /** What a step does to the fields of the active run. */
  lemma FieldFacts(s: State, step: Step)
    requires Enabled(s, step)
    ensures var r := Apply(s, step);
      var p := r.callers[step.t];
      || (!s.running && r.running && p == Registered(s.nextRun) && r.runDone == r.cancel == Some(s.nextRun))
      || (&& step.t in s.callers && Active(s.callers[step.t]) && !Active(p)
          && !r.running && r.runDone == r.cancel == None)
      || (&& r.running == s.running && r.runDone == s.runDone && r.cancel == s.cancel
          && (Active(p) ==> step.t in s.callers && Active(s.callers[step.t]) && SameRun(p, s.callers[step.t])))
  {
  }

  lemma FieldsStay(s: State, step: Step)
    requires FieldsAgree(s) && RunsApart(s) && OneActive(s) && Enabled(s, step)
    ensures FieldsAgree(Apply(s, step))
  {
    hide RunsApart, Apply, Enabled;
    FieldFacts(s, step);
    RunFacts(s, step);
  }

  /** The active caller is unique, since all active callers have the run of the field. */
  ghost predicate OneActive(s: State) {
    forall t, u :: t in s.callers && u in s.callers && Active(s.callers[t]) && Active(s.callers[u]) ==> t == u
  }

  lemma ActiveIsOne(s: State)
    requires FieldsAgree(s) && RunsApart(s)
    ensures OneActive(s)
  {
    forall t, u | t in s.callers && u in s.callers && Active(s.callers[t]) && Active(s.callers[u]) ensures t == u {
      assert SameRun(s.callers[t], s.callers[u]);
    }
  }

  lemma HeldStays(s: State, step: Step)
    requires FieldsAgree(s) && Held(s) && Enabled(s, step)
    ensures Held(Apply(s, step))
  {
    var r := Apply(s, step);
    if r.running {
      if s.running {
        var t :| t in s.callers && Active(s.callers[t]);
        assert t in r.callers && Active(r.callers[t]);
      } else {
        assert step.t in r.callers && Active(r.callers[step.t]);
      }
    }
  }

  /** What a step does to the runs. */
  lemma RunFacts(s: State, step: Step)
    requires Enabled(s, step)
    ensures var r := Apply(s, step);
      && step.t in r.callers && r.nextRun >= s.nextRun
      && (forall u :: u in r.callers && u != step.t ==> u in s.callers && r.callers[u] == s.callers[u])
      && (HasRun(r.callers[step.t]) ==>
            && r.doneClosed == s.doneClosed
            && (|| (step.t in s.callers && SameRun(s.callers[step.t], r.callers[step.t]))
                || (r.callers[step.t].run == s.nextRun < r.nextRun)))
      && (r.doneClosed != s.doneClosed ==>
            && step.t in s.callers && HasRun(s.callers[step.t]) && !HasRun(r.callers[step.t])
            && r.doneClosed == s.doneClosed + {s.callers[step.t].run})
  {
  }

  lemma ApartStays(s: State, step: Step)
    requires RunsApart(s) && Enabled(s, step)
    ensures RunsApart(Apply(s, step))
  {
    hide Apply, Enabled;
    RunFacts(s, step);
    var r := Apply(s, step);
    forall t, u | t in r.callers && u in r.callers && SameRun(r.callers[t], r.callers[u]) ensures t == u {
      if t in s.callers && u in s.callers && HasRun(s.callers[t]) && HasRun(s.callers[u])
        && s.callers[t].run == s.callers[u].run {
        assert SameRun(s.callers[t], s.callers[u]);
      }
    }
    forall t | t in r.callers && HasRun(r.callers[t])
      ensures r.callers[t].run < r.nextRun && r.callers[t].run !in r.doneClosed {
      assert r.doneClosed != s.doneClosed && t != step.t ==> !SameRun(s.callers[t], s.callers[step.t]);
    }
  }

  lemma OneCloserStays(s: State, step: Step)
    requires OneCloser(s) && Outcome(s) && Enabled(s, step)
    ensures OneCloser(Apply(s, step))
  {
    hide Apply, Enabled, PhaseAgrees;
    RunFacts(s, step);
    CloserFacts(s, step);
  }

  /** A step that leaves its caller closing finds it closing, or the runtime open. */
  lemma CloserFacts(s: State, step: Step)
    requires Enabled(s, step)
    ensures var r := Apply(s, step);
      && (s.closed ==> r.closed)
      && (Closer(r.callers[step.t]) ==>
            && r.closedDone == s.closedDone
            && ((!s.closed && r.closed) || (step.t in s.callers && Closer(s.callers[step.t]))))
      && (r.closedDone != s.closedDone ==>
            step.t in s.callers && Closer(s.callers[step.t]) && !Closer(r.callers[step.t]))
  {
  }

  lemma HasCloserStays(s: State, step: Step)
    requires OneCloser(s) && HasCloser(s) && Outcome(s) && Enabled(s, step)
    ensures HasCloser(Apply(s, step))
  {
    var r := Apply(s, step);
    if r.closed && !r.closedDone {
      if s.closed {
        var t :| t in s.callers && Closer(s.callers[t]);
        assert t in r.callers && Closer(r.callers[t]);
      } else {
        assert step.t in r.callers && Closer(r.callers[step.t]);
      }
    }
  }

  lemma OutcomeStays(s: State, step: Step)
    requires OneCloser(s) && Outcome(s) && Enabled(s, step)
    ensures Outcome(Apply(s, step))
  {
    var r := Apply(s, step);
    forall t | t in r.callers ensures PhaseAgrees(r, r.callers[t]) {
      if t != step.t {
        assert PhaseAgrees(s, s.callers[t]);
      } else if t in s.callers {
        assert PhaseAgrees(s, s.callers[t]);
      }
    }
  }

  /** What a step does to the caller that closes. */
  lemma CloseFacts(s: State, step: Step)
    requires Enabled(s, step)
    ensures var r := Apply(s, step);
      var p := r.callers[step.t];
      && (Active(p) && r.closed ==>
            step.t in s.callers && Active(s.callers[step.t]) && p.run == s.callers[step.t].run && r.closed == s.closed)
      && (Closer(p) ==>
            || (!s.closed && p == Closing(s.runDone, s.cancel) && r.closedDone == s.closedDone)
            || (&& step.t in s.callers && r.closedDone == s.closedDone
                && match s.callers[step.t]
                   case Closing(target, _) => p == Stopped(target)
                   case Stopped(target) => target.None? || target.value in s.doneClosed
                   case q => Closer(q)))
      && (r.closed != s.closed ==> Closer(p) && !s.closed)
      && (r.closedDone != s.closedDone ==> step.t in s.callers && s.callers[step.t].Recorded?)
  {
  }

  lemma WaitStays(s: State, step: Step)
    requires Inv(s) && Enabled(s, step)
    ensures CloserWaits(Apply(s, step))
  {
    hide Apply, Enabled, PhaseAgrees;
    RunFacts(s, step);
    CloseFacts(s, step);
    var r := Apply(s, step);
    forall t, u | t in r.callers && u in r.callers && Active(r.callers[t]) && r.closed
      ensures !r.closedDone
      ensures Closer(r.callers[u]) ==>
        || r.callers[u] == Closing(Some(r.callers[t].run), Some(r.callers[t].run))
        || r.callers[u] == Stopped(Some(r.callers[t].run))
    {
      assert t in s.callers && Active(s.callers[t]) && s.callers[t].run == r.callers[t].run;
      if step.t in s.callers {
        assert s.closed && Closer(s.callers[step.t]) ==>
            s.callers[step.t] == Closing(Some(s.callers[t].run), Some(s.callers[t].run))
              || s.callers[step.t] == Stopped(Some(s.callers[t].run));
      }
    }
  }

  /** A caller that holds a run keeps it until it closes the run's channel. */
  lemma HoldsStays(s: State, step: Step, t: Caller, run: RunId)
    requires Enabled(s, step) && Holds(s, t, run)
    ensures Holds(Apply(s, step), t, run) || run in Apply(s, step).doneClosed
  {
  }

  lemma NewRunHeld(s: State, step: Step)
    requires Enabled(s, step)
    ensures var r := Apply(s, step);
      && s.nextRun <= r.nextRun <= s.nextRun + 1 && s.doneClosed <= r.doneClosed
      && (r.nextRun > s.nextRun ==> Holds(r, step.t, s.nextRun))
  {
  }

  lemma AccountedStays(s: State, step: Step)
    requires Accounted(s) && Enabled(s, step)
    ensures Accounted(Apply(s, step))
  {
    hide Apply, Enabled, Holds;
    var r := Apply(s, step);
    NewRunHeld(s, step);
    forall run: RunId | run < r.nextRun && run !in r.doneClosed ensures exists t :: Holds(r, t, run) {
      if run < s.nextRun {
        var t :| Holds(s, t, run);
        HoldsStays(s, step, t, run);
      }
    }
  }

  lemma TargetsStay(s: State, step: Step)
    requires RunsAgree(s) && TargetsKnown(s) && Enabled(s, step)
    ensures TargetsKnown(Apply(s, step))
  {
    hide Apply, Enabled;
    RunFacts(s, step);
    TargetFacts(s, step);
    if s.running {
      var t :| t in s.callers && Active(s.callers[t]);
    }
  }

  lemma TargetFacts(s: State, step: Step)
    requires Enabled(s, step)
    ensures var p := Apply(s, step).callers[step.t];
      && (p.Closing? ==> p.target == s.runDone)
      && (p.Stopped? ==> step.t in s.callers && s.callers[step.t].Closing? && p.target == s.callers[step.t].target)
  {
  }

  /** Every step keeps the invariant. */
  lemma StepKeepsInv(s: State, step: Step)
    requires Inv(s) && Enabled(s, step)
    ensures Inv(Apply(s, step))
  {
    hide Apply, Enabled, FieldsAgree, Held, RunsApart, OneCloser, HasCloser, Outcome, CloserWaits, OneActive;
    hide Accounted, TargetsKnown;
    ActiveIsOne(s);
    FieldsStay(s, step);
    HeldStays(s, step);
    ApartStays(s, step);
    OneCloserStays(s, step);
    HasCloserStays(s, step);
    OutcomeStays(s, step);
    WaitStays(s, step);
    AccountedStays(s, step);
    TargetsStay(s, step);
  }

  lemma {:induction false} AlwaysInv(steps: seq<Step>)
    requires After(steps).Some?
    ensures Inv(After(steps).value)
  {
    hide Inv, Apply, Enabled;
    if |steps| == 0 {
      InitialHolds();
    } else {
      AlwaysInv(steps[..|steps| - 1]);
      StepKeepsInv(After(steps[..|steps| - 1]).value, steps[|steps| - 1]);
    }
  }

  // ---------- What holds of every interleaving ----------

  /**
    Release happens at most once, never beside a monitor body, and a caller of `Close` returns
    only after it, with its result.
  */
  lemma ReleaseIsSafe(steps: seq<Step>)
    requires After(steps).Some?
    ensures var s := After(steps).value;
      && |s.releases| <= 1
      && (forall t, u :: t in s.callers && u in s.callers && s.callers[t].Body? && s.callers[u].Body? ==> t == u)
      && (forall t <- s.callers :: s.callers[t].Body? ==> s.releases == [])
      && (forall t <- s.callers :: s.callers[t].CloseReturned? ==> s.releases == [s.callers[t].failure])
  {
    AlwaysInv(steps);
    hide After, Enabled, Apply, FieldsAgree, Held, RunsApart, OneCloser, HasCloser, Outcome, CloserWaits, Accounted;
    hide TargetsKnown;
    var s := After(steps).value;
    ActiveIsOne(s);
    ReleasedOnce(s);
    forall t | t in s.callers && s.callers[t].Body? ensures s.releases == [] {
      NotReleasedYet(s, t);
    }
    forall t | t in s.callers && s.callers[t].CloseReturned? ensures s.releases == [s.callers[t].failure] {
      ReturnedRelease(s, t);
    }
  }

  lemma ReleasedOnce(s: State)
    requires Inv(s)
    ensures |s.releases| <= 1
  {
    hide FieldsAgree, Held, RunsApart, CloserWaits, Accounted, TargetsKnown;
    if s.closed && !s.closedDone {
      var u :| u in s.callers && Closer(s.callers[u]);
      assert PhaseAgrees(s, s.callers[u]);
    }
  }

  lemma NotReleasedYet(s: State, t: Caller)
    requires Inv(s) && t in s.callers && Active(s.callers[t])
    ensures s.releases == []
  {
    hide FieldsAgree, Held, RunsApart, Accounted, TargetsKnown;
    if s.closed {
      var u :| u in s.callers && Closer(s.callers[u]);
      assert PhaseAgrees(s, s.callers[u]);
    }
  }

  lemma ReturnedRelease(s: State, t: Caller)
    requires Inv(s) && t in s.callers && s.callers[t].CloseReturned?
    ensures s.releases == [s.callers[t].failure]
  {
    hide FieldsAgree, Held, RunsApart, CloserWaits, Accounted, TargetsKnown;
    assert PhaseAgrees(s, s.callers[t]);
  }

  /** Once the runtime is closed no run registers any more, whatever the steps. */
  lemma {:induction false} ClosedForGood(steps: seq<Step>, n: nat)
    requires n <= |steps| && After(steps).Some?
    ensures After(steps[..n]).Some?
    ensures After(steps[..n]).value.closed ==>
      After(steps).value.closed && After(steps).value.nextRun == After(steps[..n]).value.nextRun
  {
    hide Apply, Enabled;
    if n < |steps| {
      var before := steps[..|steps| - 1];
      ClosedForGood(before, n);
      assert before[..n] == steps[..n];
      ClosedStays(After(before).value, steps[|steps| - 1]);
    } else {
      assert steps[..n] == steps;
    }
  }

  lemma ClosedStays(s: State, step: Step)
    requires Enabled(s, step)
    ensures s.closed ==> Apply(s, step).closed && Apply(s, step).nextRun == s.nextRun
  {
  }

  /**
    A body may still start after `closed` is set, but only that of a run registered before; the
    closer has not released, and goes on only when that very run has left.
  */
  lemma LateBodyIsAwaited(steps: seq<Step>, t: Caller)
    requires After(steps).Some? && After(steps).value.closed
    requires t in After(steps).value.callers && Active(After(steps).value.callers[t])
    ensures var s := After(steps).value;
      exists u :: u in s.callers
        && (|| s.callers[u] == Closing(Some(s.callers[t].run), Some(s.callers[t].run))
            || s.callers[u] == Stopped(Some(s.callers[t].run)))
  {
    AlwaysInv(steps);
    hide After, Enabled, Apply;
    var s := After(steps).value;
    var u :| u in s.callers && Closer(s.callers[u]);
  }

  /** After the further steps the body of the caller's run can start. */
  predicate StartsAfter(steps: seq<Step>, more: seq<Step>, t: Caller) {
    After(steps + more).Some? && Enabled(After(steps + more).value, StartBody(t))
  }

  lemma NoneRegisters(s: State, step: Step, t: Caller)
    requires s.closed && Enabled(s, step) && t in Apply(s, step).callers && Apply(s, step).callers[t].Registered?
    ensures t in s.callers && s.callers[t].Registered?
  {
  }

  lemma {:induction false} RegisteredBefore(steps: seq<Step>, more: seq<Step>, t: Caller)
    requires After(steps).Some? && After(steps).value.closed && After(steps + more).Some?
    ensures After(steps + more).value.closed
    ensures t in After(steps + more).value.callers && After(steps + more).value.callers[t].Registered? ==>
      t in After(steps).value.callers && After(steps).value.callers[t].Registered?
  {
    hide Apply, Enabled;
    if |more| == 0 {
      assert steps + more == steps;
    } else {
      var rest, step := more[..|more| - 1], more[|more| - 1];
      assert (steps + more)[..|steps + more| - 1] == steps + rest;
      RegisteredBefore(steps, rest, t);
      var s := After(steps + rest).value;
      ClosedStays(s, step);
      if t in Apply(s, step).callers && Apply(s, step).callers[t].Registered? {
        NoneRegisters(s, step, t);
      }
    }
  }

  /** Once the runtime is closed a body can still start, now or later, exactly when its run has registered by then. */
  lemma BodyStartsIffRegistered(steps: seq<Step>, t: Caller)
    requires After(steps).Some? && After(steps).value.closed
    ensures (exists more :: StartsAfter(steps, more, t)) <==>
      t in After(steps).value.callers && After(steps).value.callers[t].Registered?
  {
    hide After, Apply;
    var s := After(steps).value;
    if t in s.callers && s.callers[t].Registered? {
      assert steps + [] == steps;
      assert StartsAfter(steps, [], t);
    }
    if more :| StartsAfter(steps, more, t) {
      RegisteredBefore(steps, more, t);
    }
  }

  /** It does happen: the run registers, the runtime is closed, and then the body starts. */
  lemma BodyMayStartAfterClosed()
    ensures exists steps :: After(steps).Some? && After(steps).value.closed && Enabled(After(steps).value, StartBody(0))
  {
    hide After;
    var first, second, third := [CallRun(0)], [CallRun(0), EnterRun(0)], [CallRun(0), EnterRun(0), CallClose(1)];
    var steps := third + [EnterClose(1)];
    var entered := Initial().(callers := map[0 := RunCalled][0 := Registered(0)], running := true, cancel := Some(0),
      runDone := Some(0), nextRun := 1);
    NothingDone();
    Extend([], CallRun(0), Initial());
    assert [] + [CallRun(0)] == first;
    assert Moved(Initial(), 0, RunCalled).callers == map[0 := RunCalled];
    Extend(first, EnterRun(0), Moved(Initial(), 0, RunCalled));
    assert first + [EnterRun(0)] == second;
    Extend(second, CallClose(1), entered);
    assert second + [CallClose(1)] == third;
    Extend(third, EnterClose(1), Moved(entered, 1, CloseCalled));
    assert After(steps).value.closed && Enabled(After(steps).value, StartBody(0));
  }

  lemma NothingDone()
    ensures After([]) == Some(Initial())
  {
  }

  lemma Extend(steps: seq<Step>, step: Step, s: State)
    requires After(steps) == Some(s) && Enabled(s, step)
    ensures After(steps + [step]) == Some(Apply(s, step))
  {
    assert (steps + [step])[..|steps|] == steps;
  }

  // ---------- No deadlock ----------

  predicate Finished(p: Phase) {
    p.RunReturned? || p.RefusedClosed? || p.RefusedRunning? || p.CloseReturned?
  }

  /** The step of a caller that waits for nobody. */
  function OwnStep(p: Phase, t: Caller): Step {
    match p
    case RunCalled => EnterRun(t)
    case Registered(_) => StartBody(t)
    case Body(_) => EndBody(t)
    case BodyEnded(_) => LeaveRun(t)
    case Cleared(_) => SignalDone(t)
    case CloseCalled => EnterClose(t)
    case Closing(_, _) => Cancel(t)
    case Joined => Release(t, 0)
    case Released(_) => Record(t)
    case _ => SignalClosed(t)
  }

  lemma OwnStepIsEnabled(s: State, t: Caller)
    requires t in s.callers && !Finished(s.callers[t]) && !s.callers[t].Stopped? && !s.callers[t].Waiting?
    ensures Enabled(s, OwnStep(s.callers[t], t))
    ensures !OwnStep(s.callers[t], t).CallRun? && !OwnStep(s.callers[t], t).CallClose?
  {
  }

  predicate Progress(step: Step) {
    !step.CallRun? && !step.CallClose?
  }

  /** A closer that waits for a run can go on, or the run's caller can. */
  lemma StoppedMoves(s: State, t: Caller)
    requires Inv(s) && t in s.callers && s.callers[t].Stopped?
    ensures exists step :: Progress(step) && Enabled(s, step)
  {
    hide OwnStep, FieldsAgree, Held, RunsApart, OneCloser, HasCloser, Outcome, CloserWaits;
    var target := s.callers[t].target;
    if target.None? || target.value in s.doneClosed {
      assert Enabled(s, Join(t)) && Progress(Join(t));
    } else {
      assert AwaitsKnown(s, s.callers[t]);
      var u :| Holds(s, u, target.value);
      OwnStepIsEnabled(s, u);
    }
  }

  /** While a caller has not returned, some caller can take a step. */
  lemma NoDeadlock(steps: seq<Step>, t: Caller)
    requires After(steps).Some? && t in After(steps).value.callers && !Finished(After(steps).value.callers[t])
    ensures exists step :: Progress(step) && Enabled(After(steps).value, step)
  {
    AlwaysInv(steps);
    hide After, Apply;
    var s := After(steps).value;
    hide Enabled, OwnStep;
    if s.callers[t].Stopped? {
      StoppedMoves(s, t);
    } else if s.callers[t].Waiting? {
      assert PhaseAgrees(s, s.callers[t]);
      if s.closedDone {
        ObserveIsEnabled(s, t);
      } else {
        var u :| u in s.callers && Closer(s.callers[u]);
        if s.callers[u].Stopped? {
          StoppedMoves(s, u);
        } else {
          OwnStepIsEnabled(s, u);
        }
      }
    } else {
      OwnStepIsEnabled(s, t);
    }
  }

  lemma ObserveIsEnabled(s: State, t: Caller)
    requires At(s, t, Waiting) && s.closedDone && s.closeErr.Some?
    ensures Enabled(s, Observe(t)) && Progress(Observe(t))
  {
  }

  // ---------- Every caller returns ----------

  /** How many steps a caller still has to take, the call itself included. */
  function StepsLeft(s: State, t: Caller): nat {
    if t !in s.callers then 7
    else
      match s.callers[t]
      case RunCalled => 5
      case Registered(_) => 4
      case Body(_) => 3
      case BodyEnded(_) => 2
      case Cleared(_) => 1
      case CloseCalled => 6
      case Closing(_, _) => 5
      case Stopped(_) => 4
      case Joined => 3
      case Released(_) => 2
      case Recorded(_) => 1
      case Waiting => 1
      case _ => 0
  }

  /** The same for the callers below a number. */
  function AllLeft(s: State, callers: nat): nat {
    if callers == 0 then 0 else AllLeft(s, callers - 1) + StepsLeft(s, callers - 1)
  }

  ghost predicate Below(steps: seq<Step>, callers: nat) {
    forall i :: 0 <= i < |steps| ==> steps[i].t < callers
  }

  lemma OthersStay(s: State, step: Step, t: Caller)
    requires Enabled(s, step) && t != step.t
    ensures StepsLeft(Apply(s, step), t) == StepsLeft(s, t)
  {
    hide Enabled;
    RunFacts(s, step);
  }

  lemma OwnCounts(s: State, step: Step)
    requires Enabled(s, step)
    ensures StepsLeft(Apply(s, step), step.t) < StepsLeft(s, step.t)
  {
  }

  lemma {:induction false} AllCount(s: State, step: Step, callers: nat)
    requires Enabled(s, step)
    ensures AllLeft(Apply(s, step), callers) <= AllLeft(s, callers) - if step.t < callers then 1 else 0
  {
    hide Apply, Enabled, StepsLeft;
    if callers > 0 {
      AllCount(s, step, callers - 1);
      if step.t == callers - 1 {
        OwnCounts(s, step);
      } else {
        OthersStay(s, step, callers - 1);
      }
    }
  }

  lemma {:induction false} LeftAtFirst(callers: nat)
    ensures AllLeft(Initial(), callers) == 7 * callers
  {
    if callers > 0 {
      LeftAtFirst(callers - 1);
    }
  }

  /** Nobody takes more than seven steps, so no interleaving of finitely many callers goes on for ever. */
  lemma {:induction false} RunsAreBounded(steps: seq<Step>, callers: nat)
    requires After(steps).Some? && Below(steps, callers)
    ensures |steps| + AllLeft(After(steps).value, callers) <= 7 * callers
  {
    hide Apply, Enabled, StepsLeft;
    if |steps| == 0 {
      LeftAtFirst(callers);
    } else {
      var before := steps[..|steps| - 1];
      RunsAreBounded(before, callers);
      AllCount(After(before).value, steps[|steps| - 1], callers);
    }
  }

  ghost predicate AllFinished(s: State) {
    forall t <- s.callers :: Finished(s.callers[t])
  }

  /** When no one can go on any more, everybody has returned. */
  lemma StuckIsFinished(steps: seq<Step>)
    requires After(steps).Some?
    ensures (forall step :: Progress(step) ==> !Enabled(After(steps).value, step)) ==> AllFinished(After(steps).value)
  {
    hide Progress, Enabled, Finished, After;
    var s := After(steps).value;
    if t :| t in s.callers && !Finished(s.callers[t]) {
      NoDeadlock(steps, t);
    }
  }

  /** The longer run goes on from the shorter with the same callers until all of them have returned. */
  ghost predicate Completes(longer: seq<Step>, steps: seq<Step>)
    requires After(steps).Some?
  {
    && steps <= longer && After(longer).Some? && AllFinished(After(longer).value)
    && After(longer).value.callers.Keys == After(steps).value.callers.Keys
  }

  lemma KnownCaller(s: State, step: Step)
    requires Enabled(s, step) && Progress(step)
    ensures step.t in s.callers
  {
  }

  lemma SameCallers(s: State, step: Step)
    requires Enabled(s, step) && Progress(step)
    ensures Apply(s, step).callers.Keys == s.callers.Keys
  {
  }

  lemma {:induction false} CallersBelow(steps: seq<Step>, callers: nat)
    requires After(steps).Some? && Below(steps, callers)
    ensures forall t <- After(steps).value.callers :: t < callers
  {
    hide Enabled, Apply;
    if |steps| > 0 {
      var before := steps[..|steps| - 1];
      CallersBelow(before, callers);
      RunFacts(After(before).value, steps[|steps| - 1]);
    }
  }

  /** From every reachable state all callers can return without a new call. */
  lemma {:induction false} EveryoneReturns(steps: seq<Step>, callers: nat)
    requires After(steps).Some? && Below(steps, callers)
    ensures exists longer :: Completes(longer, steps)
    decreases 7 * callers - |steps|
  {
    hide After, Enabled, Apply, Finished, Progress;
    var s := After(steps).value;
    RunsAreBounded(steps, callers);
    if step :| Progress(step) && Enabled(s, step) {
      KnownCaller(s, step);
      SameCallers(s, step);
      CallersBelow(steps, callers);
      Extend(steps, step, s);
      var more := steps + [step];
      RunsAreBounded(more, callers);
      EveryoneReturns(more, callers);
      var longer :| Completes(longer, more);
      assert Completes(longer, steps);
    } else {
      StuckIsFinished(steps);
      assert Completes(steps, steps);
    }
  }
}
