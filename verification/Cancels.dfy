/** Which runs of the runtime are canceled: the closer cancels the run it waits for, and nothing else runs canceled. */
module Cancels {
  import opened Market
  import opened Lifecycle

  /** The closer that has stopped this run and waits for it. */
  ghost predicate Awaited(s: State, run: RunId) {
    exists u :: u in s.callers && s.callers[u] == Stopped(Some(run))
  }

  /** The closer stops what it waits for. */
  ghost predicate CloserCancels(s: State) {
    && (forall t <- s.callers :: s.callers[t].Closing? ==> s.callers[t].target == s.callers[t].stop)
    && (forall t <- s.callers :: s.callers[t].Stopped? && s.callers[t].target.Some? ==>
          s.callers[t].target.value in s.canceled)
  }

  /** A run that has left is canceled. */
  ghost predicate LeftIsCanceled(s: State) {
    && (forall t <- s.callers :: s.callers[t].Cleared? ==> s.callers[t].run in s.canceled)
    && (forall r <- s.doneClosed :: r in s.canceled)
  }

  ghost predicate OverIsCanceled(s: State) {
    CloserCancels(s) && LeftIsCanceled(s)
  }

  /** Only runs that were given out are canceled, and of those that are not over only one that is waited for. */
  ghost predicate CanceledIsOver(s: State) {
    && (forall r <- s.canceled :: r < s.nextRun)
    && (forall t <- s.callers :: Active(s.callers[t]) && s.callers[t].run in s.canceled ==>
          Awaited(s, s.callers[t].run))
  }

  lemma FieldsEqual(s: State)
    requires RunsAgree(s)
    ensures s.runDone == s.cancel
  {
    if s.running {
      var t :| t in s.callers && Active(s.callers[t]);
    }
  }

  /** What a step does to the canceled runs and to the caller that takes it. */
  lemma CancelFacts(s: State, step: Step)
    requires Enabled(s, step)
    ensures var r := Apply(s, step);
      && step.t in r.callers
      && (forall u :: u != step.t ==> (u in r.callers <==> u in s.callers))
      && (forall u :: u in s.callers && u != step.t ==> r.callers[u] == s.callers[u])
      && var p := r.callers[step.t];
         && (p.Closing? ==> p == Closing(s.runDone, s.cancel))
         && (p.Stopped? ==> step.Cancel?)
         && (step.Cancel? ==>
               && step.t in s.callers && s.callers[step.t].Closing? && p == Stopped(s.callers[step.t].target)
               && r.canceled == s.canceled + Just(s.callers[step.t].stop))
         && (step.LeaveRun? ==>
               && step.t in s.callers && Active(s.callers[step.t])
               && r.canceled == s.canceled + {s.callers[step.t].run})
         && (!step.Cancel? && !step.LeaveRun? ==> r.canceled == s.canceled)
  {
  }

  function Just(run: Option<RunId>): set<RunId> {
    if run.Some? then {run.value} else {}
  }

  lemma CloserStays(s: State, step: Step)
    requires s.runDone == s.cancel && CloserCancels(s) && Enabled(s, step)
    ensures CloserCancels(Apply(s, step))
  {
    hide Apply, Enabled;
    CancelFacts(s, step);
  }

  lemma LeftStays(s: State, step: Step)
    requires LeftIsCanceled(s) && Enabled(s, step)
    ensures LeftIsCanceled(Apply(s, step))
  {
  }

  lemma OverStays(s: State, step: Step)
    requires RunsAgree(s) && OverIsCanceled(s) && Enabled(s, step)
    ensures OverIsCanceled(Apply(s, step))
  {
    FieldsEqual(s);
    hide RunsAgree, Apply, Enabled, CloserCancels, LeftIsCanceled;
    CloserStays(s, step);
    LeftStays(s, step);
  }

  lemma GivenOut(s: State, step: Step)
    requires Inv(s) && OverIsCanceled(s) && CanceledIsOver(s) && Enabled(s, step)
    ensures forall r <- Apply(s, step).canceled :: r < Apply(s, step).nextRun
  {
    hide CloseAgrees, CloserWaits, Accounted, FieldsAgree, Held;
    if step.Cancel? {
      assert AwaitsKnown(s, s.callers[step.t]);
    }
  }

  /** A run that becomes canceled while it is active is the one the closer has just stopped. */
  lemma CanceledStays(s: State, step: Step)
    requires Inv(s) && OverIsCanceled(s) && CanceledIsOver(s) && Enabled(s, step)
    ensures CanceledIsOver(Apply(s, step))
  {
    GivenOut(s, step);
    hide Inv, RunsApart, CloserCancels, LeftIsCanceled, Apply, Enabled, Awaited;
    InvParts(s);
    var r := Apply(s, step);
    forall t | t in r.callers && Active(r.callers[t]) && r.callers[t].run in r.canceled
      ensures Awaited(r, r.callers[t].run)
    {
      AwaitedStays(s, step, t);
    }
  }

  lemma AwaitedStays(s: State, step: Step, t: Caller)
    requires RunsApart(s) && CloserCancels(s) && CanceledIsOver(s) && Enabled(s, step)
    requires t in Apply(s, step).callers && Active(Apply(s, step).callers[t])
    requires Apply(s, step).callers[t].run in Apply(s, step).canceled
    ensures Awaited(Apply(s, step), Apply(s, step).callers[t].run)
  {
    hide Apply, Enabled;
    CancelFacts(s, step);
    RunFacts(s, step);
    var r := Apply(s, step);
    var run := r.callers[t].run;
    if run in s.canceled {
      WasActive(s, step, t);
      var u :| u in s.callers && s.callers[u] == Stopped(Some(run));
      StoppedStays(s, step, t, u, run);
    } else if step.Cancel? {
      assert r.callers[step.t] == Stopped(Some(run));
    } else {
      LeftIsOther(s, step, t);
    }
  }

  /** An active run was active before, unless it has just been given out. */
  lemma WasActive(s: State, step: Step, t: Caller)
    requires Enabled(s, step) && t in Apply(s, step).callers && Active(Apply(s, step).callers[t])
    ensures Apply(s, step).callers[t].run != s.nextRun ==>
      t in s.callers && Active(s.callers[t]) && s.callers[t].run == Apply(s, step).callers[t].run
  {
    hide Apply, Enabled;
    FieldFacts(s, step);
    RunFacts(s, step);
  }

  /** The closer keeps waiting while the run it waits for is active. */
  lemma StoppedStays(s: State, step: Step, t: Caller, u: Caller, run: RunId)
    requires RunsApart(s) && Enabled(s, step) && u in s.callers && s.callers[u] == Stopped(Some(run))
    requires t in Apply(s, step).callers && Active(Apply(s, step).callers[t]) && Apply(s, step).callers[t].run == run
    requires run < s.nextRun
    ensures u in Apply(s, step).callers && Apply(s, step).callers[u] == Stopped(Some(run))
  {
    WasActive(s, step, t);
  }

  /** A caller that leaves with a run leaves no other active on it. */
  lemma LeftIsOther(s: State, step: Step, t: Caller)
    requires RunsApart(s) && Enabled(s, step) && t in Apply(s, step).callers && Active(Apply(s, step).callers[t])
    requires step.LeaveRun?
    ensures Apply(s, step).callers[t].run != s.callers[step.t].run
  {
    hide RunsApart;
    ApartStays(s, step);
    if Apply(s, step).callers[t].run == s.callers[step.t].run {
      SameRunIsOne(Apply(s, step), t, step.t);
    }
  }

  lemma SameRunIsOne(s: State, t: Caller, u: Caller)
    requires RunsApart(s) && t in s.callers && u in s.callers && SameRun(s.callers[t], s.callers[u])
    ensures t == u
  {
  }

  /**
   * After any steps of any callers: a run is canceled once it has left or a closer waits for it, and while it has not
   * left only then.
   */
  lemma {:induction false} CanceledIff(steps: seq<Step>)
    requires After(steps).Some?
    ensures Inv(After(steps).value) && OverIsCanceled(After(steps).value) && CanceledIsOver(After(steps).value)
  {
    if |steps| > 0 {
      hide Apply, Enabled, Inv, OverIsCanceled, CanceledIsOver;
      var before := After(steps[..|steps| - 1]).value;
      CanceledIff(steps[..|steps| - 1]);
      StepKeepsInv(before, steps[|steps| - 1]);
      RunsOf(before);
      OverStays(before, steps[|steps| - 1]);
      CanceledStays(before, steps[|steps| - 1]);
    } else {
      InitialHolds();
    }
  }

  lemma RunsOf(s: State)
    requires Inv(s)
    ensures RunsAgree(s)
  {
  }

  lemma InvParts(s: State)
    requires Inv(s)
    ensures RunsApart(s)
  {
  }
}
