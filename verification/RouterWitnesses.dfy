/** Inputs that reach the states in which `close()` guarantees less than it promises. */
module RouterWitnesses {
  import opened Wrappers
  import opened RouterSpec
  import opened RouterMachine
  import opened RouterSteps
  import opened RouterTheorems
  import opened RouterLimits

  ghost predicate Reachable(s: Sys) {
    exists states: seq<Sys>, steps: seq<Step> :: IsRun(states, steps) && states[|steps|] == s
  }

  lemma ReachInit()
    ensures Reachable(Init())
  {
    assert IsRun([Init()], []);
  }

  lemma ReachNext(s: Sys, e: Step)
    requires Reachable(s) && Enabled(s, e)
    ensures Reachable(Apply(s, e))
  {
    var states: seq<Sys>, steps: seq<Step> :| IsRun(states, steps) && states[|steps|] == s;
    assert IsRun(states + [Apply(s, e)], steps + [e]);
  }

  // ---------- one call, one slot ----------

  function Caller(pc: CallPc, runs: nat): map<nat, Call> { map[0 := Call("s", "b", true, pc, 0, runs)] }

  function One(slot: Slot, meta: Meta, pc: CallPc, runs: nat): Sys {
    Sys(Router(false, [Entry("s", 0)], [slot]), [meta], Caller(pc, runs), [], [], None)
  }

  function IdleSlot(generation: int): Slot { Slot("s", "b", 1, generation > 0, generation, false, None, true) }

  function AdmittedState(): Sys { One(IdleSlot(0).(hasAdapter := false), NewMeta(), Admitted, 0) }
  function RanState(): Sys { One(IdleSlot(0), NewMeta(), Ran(true), 1) }
  function LaunchingState(): Sys { One(IdleSlot(1), NewMeta(), Launching(1), 1) }

  /** The first call has launched a worker and is about to leave. */
  function RunningState(): Sys {
    One(IdleSlot(1).(active := true, thread := Some(0)), NewMeta().(lastGen := 1), Leaving, 1)
    .(workers := [Worker(0, 1, Cycle)])
  }

  lemma ReachAdmitted()
    ensures Reachable(AdmittedState())
  {
    var s0 := Sys(Router(false, [], []), [], Caller(Verified, 0), [], [], None);
    var s1 := Sys(Router(false, [], []), [], Caller(Cleared, 0), [], [], None);
    ReachInit();
    assert Apply(Init(), Arrive(0, "s", "b", true)) == s0;
    ReachNext(Init(), Arrive(0, "s", "b", true));
    assert Apply(s0, Gate(0, true, true, true)) == s1;
    ReachNext(s0, Gate(0, true, true, true));
    assert Apply(s1, Enter(0)) == AdmittedState();
    ReachNext(s1, Enter(0));
  }

  lemma ReachRan()
    ensures Reachable(RanState())
  {
    var s := One(IdleSlot(0), NewMeta().(holder := Some(0)), Executing, 1);
    ReachAdmitted();
    assert Apply(AdmittedState(), Begin(0)) == s;
    ReachNext(AdmittedState(), Begin(0));
    assert Apply(s, End(0, true)) == RanState();
    ReachNext(s, End(0, true));
  }

  lemma ReachLaunching()
    ensures Reachable(LaunchingState())
  {
    var s := One(IdleSlot(1), NewMeta(), Requested(1), 1);
    ReachRan();
    assert Apply(RanState(), Ask(0, true)) == s;
    ReachNext(RanState(), Ask(0, true));
    assert Apply(s, CheckLaunch(0)) == LaunchingState();
    ReachNext(s, CheckLaunch(0));
  }

  lemma ReachRunning()
    ensures Reachable(RunningState())
  {
    ReachLaunching();
    assert Apply(LaunchingState(), Launch(0, true)) == RunningState();
    ReachNext(LaunchingState(), Launch(0, true));
  }

  // ---------- the failing sides ----------

  /** A call is admitted, a `close()` starts: a second `close()` can return while the call waits to execute. */
  lemma EarlyReturn()
    ensures exists s ::
              && Reachable(s) && Enabled(s, Shutdown) && s.r.closed && At(s, 0, Admitted)
              && !Complete(s) && !KeepsPromise(s)
  {
    var s := Apply(AdmittedState(), Shutdown);
    ReachAdmitted();
    ReachNext(AdmittedState(), Shutdown);
    assert InFlight(s.calls[0].pc);
    var states: seq<Sys>, steps: seq<Step> :| IsRun(states, steps) && states[|steps|] == s;
    CloseGuaranteeExact(states, steps, |steps|);
  }

  ghost predicate CanOverlap(s: Sys, i: nat) {
    Enabled(s, Shutdown) && exists s' :: Follows(Apply(s, Shutdown), s') && Overlaps(s', i)
  }

  /** A call past its launch check: `close()` starts, the worker starts, and its slot is closed under it. */
  lemma LateWorker()
    ensures exists s :: Reachable(s) && LaunchingIn(s, 0) && s.workers == [] && CanOverlap(s, 0)
  {
    var s := LaunchingState();
    ReachLaunching();
    assert 0 in s.calls && s.calls[0].pc.Launching?;
    var states: seq<Sys>, steps: seq<Step> :| IsRun(states, steps) && states[|steps|] == s;
    OverlapExact(states, steps, |steps|, 0);
  }

  /** A worker in its cycle: `close()` starts and closes the slot under it. */
  lemma ActiveWorker()
    ensures exists s :: Reachable(s) && WorkerAt(s, 0, Cycle) && !LaunchingIn(s, 0) && CanOverlap(s, 0)
  {
    var s := RunningState();
    ReachRunning();
    assert WorkerAt(s, 0, Cycle);
    var states: seq<Sys>, steps: seq<Step> :| IsRun(states, steps) && states[|steps|] == s;
    OverlapExact(states, steps, |steps|, 0);
  }
}
