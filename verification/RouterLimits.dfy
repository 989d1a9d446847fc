/** What `close()` does not guarantee, and exactly where the line runs: at the state in which it
    takes the router lock. */
module RouterLimits {
  import opened RouterSpec
  import opened RouterMachine
  import opened RouterInvariant
  import opened RouterSteps
  import opened RouterTheorems

  // ---------- what can follow a state ----------

  ghost predicate IsRunFrom(s: Sys, states: seq<Sys>, steps: seq<Step>) {
    && |states| == |steps| + 1 && states[0] == s
    && forall k :: 0 <= k < |steps| ==> Enabled(states[k], steps[k]) && states[k + 1] == Apply(states[k], steps[k])
  }

  ghost predicate Leads(s: Sys, states: seq<Sys>, steps: seq<Step>, s': Sys) {
    IsRunFrom(s, states, steps) && states[|steps|] == s'
  }

  ghost predicate Follows(s: Sys, s': Sys) { exists states, steps :: Leads(s, states, steps, s') }

  lemma FollowsItself(s: Sys)
    ensures Follows(s, s)
  {
    assert Leads(s, [s], [], s);
  }

  lemma FollowsFirst(s: Sys, e: Step, s': Sys)
    requires Enabled(s, e) && Follows(Apply(s, e), s')
    ensures Follows(s, s')
  {
    var states, steps :| Leads(Apply(s, e), states, steps, s');
    assert ([s] + states)[1..] == states;
    assert Leads(s, [s] + states, [e] + steps, s');
  }

  lemma FollowsLast(s: Sys, s': Sys, e: Step)
    requires Follows(s, s') && Enabled(s', e)
    ensures Follows(s, Apply(s', e))
  {
    var states, steps :| Leads(s, states, steps, s');
    assert Leads(s, states + [Apply(s', e)], steps + [e], Apply(s', e));
  }

  lemma {:induction false} Joined(s: Sys, states: seq<Sys>, steps: seq<Step>, s': Sys, s'': Sys)
    requires Leads(s, states, steps, s') && Follows(s', s'')
    ensures Follows(s, s'')
    decreases |steps|
  {
    if steps != [] {
      assert Leads(states[1], states[1..], steps[1..], s');
      Joined(states[1], states[1..], steps[1..], s', s'');
      FollowsFirst(s, steps[0], s'');
    }
  }

  lemma FollowsThen(s: Sys, s': Sys, s'': Sys)
    requires Follows(s, s') && Follows(s', s'')
    ensures Follows(s, s'')
  {
    var states, steps :| Leads(s, states, steps, s');
    Joined(s, states, steps, s', s'');
  }

  lemma {:induction false} LeadsInv(s: Sys, states: seq<Sys>, steps: seq<Step>, k: nat)
    requires Inv(s) && IsRunFrom(s, states, steps) && k <= |steps|
    ensures Inv(states[k])
  {
    if k > 0 {
      LeadsInv(s, states, steps, k - 1);
      StepInv(states[k - 1], steps[k - 1]);
    }
  }

  lemma FollowsInv(s: Sys, s': Sys)
    requires Inv(s) && Follows(s, s')
    ensures Inv(s')
  {
    var states, steps :| Leads(s, states, steps, s');
    LeadsInv(s, states, steps, |steps|);
  }

  // ---------- a close() that finds the router closed ----------

  lemma CompleteStays(s: Sys, e: Step)
    requires Inv(s) && Enabled(s, e) && Complete(s)
    ensures Complete(Apply(s, e))
  {
    match e
    case CloseNext(c) => NothingLeft(s, c);
    case Enter(t) => CompleteEnter(s, t);
    case FinishCycle(_, _) => CompleteWorker(s, e);
    case Rearm(w, _) => RearmNeedsOpen(s, w);
    case _ =>
  }

  lemma CompleteEnter(s: Sys, t: nat)
    requires Inv(s) && Enabled(s, Enter(t)) && Complete(s)
    ensures Complete(Apply(s, Enter(t)))
  {
    AdmitDecides(s.r, s.calls[t].session, s.calls[t].bridgeId);
  }

  lemma CompleteWorker(s: Sys, e: Step)
    requires Enabled(s, e) && e.FinishCycle? && Complete(s)
    ensures Complete(Apply(s, e))
  {
  }

  lemma DoomedIsOpen(s: Sys, n: nat)
    requires Inv(s) && s.closers != [] && Progress(s.closers[0]) <= n < |s.closers[0].todo|
    ensures s.closers[0].todo[n] < |s.meta| && s.meta[s.closers[0].todo[n]].closes == 0
  {
    assert PhaseOk(s, s.closers[0].todo[n]);
  }

  lemma NothingLeft(s: Sys, c: nat)
    requires Inv(s) && Complete(s)
    ensures !Enabled(s, CloseNext(c))
  {
    var first := s.closers[0];
    if Progress(first) < |first.todo| {
      DoomedIsOpen(s, Progress(first));
      assert false;
    }
  }

  lemma {:induction false} CompleteForever(s: Sys, states: seq<Sys>, steps: seq<Step>, k: nat)
    requires Inv(s) && Complete(s) && IsRunFrom(s, states, steps) && k <= |steps|
    ensures Complete(states[k])
  {
    if k > 0 {
      CompleteForever(s, states, steps, k - 1);
      LeadsInv(s, states, steps, k - 1);
      CompleteStays(states[k - 1], steps[k - 1]);
    }
  }

  /** Closer `c` has returned. */
  predicate HasReturned(s: Sys, c: nat) { c < |s.closers| && s.closers[c].pc == Returned }

  /** Whenever the `close()` that starts in `s` has returned, everything is closed and drained. */
  ghost predicate KeepsPromise(s: Sys)
    requires Enabled(s, Shutdown)
  {
    forall s' :: Follows(Apply(s, Shutdown), s') && HasReturned(s', |s.closers|) ==> Complete(s')
  }

  lemma FirstKeepsPromise(s: Sys)
    requires Inv(s) && Enabled(s, Shutdown) && !s.r.closed
    ensures KeepsPromise(s)
  {
    forall s' | Follows(Apply(s, Shutdown), s') && HasReturned(s', 0) ensures Complete(s') {
      StepInv(s, Shutdown);
      FollowsInv(Apply(s, Shutdown), s');
      FirstCloserDone(s');
    }
  }

  lemma LateKeepsPromise(s: Sys)
    requires Inv(s) && Enabled(s, Shutdown) && Complete(s)
    ensures KeepsPromise(s)
  {
    var s1 := Apply(s, Shutdown);
    StepInv(s, Shutdown);
    CompleteStays(s, Shutdown);
    forall s' | Follows(s1, s') ensures Complete(s') {
      var states, steps :| Leads(s1, states, steps, s');
      CompleteForever(s1, states, steps, |steps|);
    }
  }

  /** A `close()` that finds the router closed has nothing to drain or close, and can return at once. */
  lemma ReturnsAtOnce(s: Sys) returns (s': Sys)
    requires Inv(s) && Enabled(s, Shutdown) && s.r.closed
    ensures Follows(Apply(s, Shutdown), s') && HasReturned(s', |s.closers|)
    ensures s'.r == s.r && s'.meta == s.meta && s'.calls == s.calls
  {
    var c := |s.closers|;
    var s1 := Apply(s, Shutdown);
    assert Shut(s.r).1 == [];
    forall i | 0 <= i < |s.meta| ensures s1.meta[i] == s.meta[i] { assert PhaseOk(s, i); }
    FollowsItself(s1);
    FollowsLast(s1, s1, Drained(c));
    var s2 := Apply(s1, Drained(c));
    FollowsLast(s1, s2, Return(c));
    s' := Apply(s2, Return(c));
    assert s1.meta == s.meta;
  }

  /** The promise of `close()` -- once it returns, every slot and adapter has been closed exactly
      once and no call is in flight.  In any reachable state in which a `close()` can take the
      router lock, it will keep the promise if and only if it finds the router open, or everything
      is closed and drained already. */
  lemma CloseGuaranteeExact(states: seq<Sys>, steps: seq<Step>, k: nat)
    requires IsRun(states, steps) && k <= |steps| && Enabled(states[k], Shutdown)
    ensures KeepsPromise(states[k]) <==> !states[k].r.closed || Complete(states[k])
  {
    var s := states[k];
    RunInv(states, steps, k);
    if !s.r.closed {
      FirstKeepsPromise(s);
    } else if Complete(s) {
      LateKeepsPromise(s);
    } else {
      var s' := ReturnsAtOnce(s);
      assert !Complete(s');
    }
  }

  // ---------- a close that overlaps a completion cycle ----------

  /** Slot `i` has been closed and a worker of it is in its completion cycle. */
  ghost predicate Overlaps(s: Sys, i: nat) {
    && i < |s.r.slots| && i < |s.meta| && s.meta[i].phase.Closed? && s.r.slots[i].active
    && (exists w :: 0 <= w < |s.workers| && s.workers[w].slot == i && s.workers[w].pc == Cycle)
  }

  /** A caller has passed its launch check for slot `i` and not yet launched. */
  ghost predicate LaunchingIn(s: Sys, i: nat) {
    exists t :: t in s.calls && s.calls[t].pc.Launching? && s.calls[t].slot == i
  }

  /** Slot `i` of a closed router will never run a completion cycle again. */
  ghost predicate Quiet(s: Sys, i: nat) {
    s.r.closed && i < |s.r.slots| && !s.r.slots[i].active && !LaunchingIn(s, i)
  }

  lemma QuietEnter(s: Sys, t: nat, i: nat)
    requires Inv(s) && Enabled(s, Enter(t)) && Quiet(s, i)
    ensures Quiet(Apply(s, Enter(t)), i)
  {
    AdmitDecides(s.r, s.calls[t].session, s.calls[t].bridgeId);
  }

  lemma QuietWorkers(s: Sys, e: Step, i: nat)
    requires Inv(s) && Enabled(s, e) && Quiet(s, i) && (e.Launch? || e.FinishCycle?)
    ensures Quiet(Apply(s, e), i)
  {
  }

  /** Past shutdown no caller passes its launch check. */
  lemma QuietCalls(s: Sys, e: Step, i: nat)
    requires Inv(s) && Enabled(s, e) && Quiet(s, i)
    requires e.Arrive? || e.Gate? || e.CloseStale? || e.Begin? || e.End? || e.Ask? || e.Drop? || e.CheckLaunch?
             || e.Leave?
    ensures Quiet(Apply(s, e), i)
  {
    var s' := Apply(s, e);
    assert |s'.r.slots| == |s.r.slots| && s'.r.closed && s'.r.slots[i].active == s.r.slots[i].active;
    forall t | t in s'.calls && s'.calls[t].pc.Launching? ensures s'.calls[t].slot != i {
      assert t in s.calls && s.calls[t] == s'.calls[t];
    }
  }

  lemma QuietStays(s: Sys, e: Step, i: nat)
    requires Inv(s) && Enabled(s, e) && Quiet(s, i)
    ensures Quiet(Apply(s, e), i)
  {
    match e
    case Enter(t) => QuietEnter(s, t, i);
    case Launch(_, _) => QuietWorkers(s, e, i);
    case FinishCycle(_, _) => QuietWorkers(s, e, i);
    case Rearm(w, _) => RearmNeedsOpen(s, w);
    case Shutdown =>
    case Drained(_) =>
    case CloseNext(_) =>
    case Return(_) =>
    case _ => QuietCalls(s, e, i);
  }

  lemma {:induction false} QuietForever(s: Sys, states: seq<Sys>, steps: seq<Step>, k: nat, i: nat)
    requires Inv(s) && Quiet(s, i) && IsRunFrom(s, states, steps) && k <= |steps|
    ensures Quiet(states[k], i)
  {
    if k > 0 {
      QuietForever(s, states, steps, k - 1, i);
      LeadsInv(s, states, steps, k - 1);
      QuietStays(states[k - 1], steps[k - 1], i);
    }
  }

  lemma QuietNeverOverlaps(s: Sys, s': Sys, i: nat)
    requires Inv(s) && Quiet(s, i) && Follows(s, s')
    ensures !Overlaps(s', i)
  {
    var states, steps :| Leads(s, states, steps, s');
    QuietForever(s, states, steps, |steps|, i);
  }

  // ---------- draining while a worker runs ----------

  /** Worker `w` is in a cycle of slot `i` of a router that is shutting down. */
  ghost predicate Running(s: Sys, i: nat, w: nat) {
    && s.r.closed && s.lock.None? && s.closers != []
    && i < |s.r.slots| && s.r.slots[i].active
    && w < |s.workers| && s.workers[w].slot == i && s.workers[w].pc == Cycle
  }

  ghost function Flying(s: Sys): set<nat> { FlyingIn(s.calls) }

  ghost function FlyingIn(calls: map<nat, Call>): set<nat> { set t | t in calls && InFlight(calls[t].pc) }

  /** A step that brings a call in flight nearer to its release. */
  function MoveOf(t: nat, pc: CallPc): Step {
    match pc
    case Retiring(_) => CloseStale(t, false)
    case Admitted => Begin(t)
    case Executing => End(t, false)
    case Ran(_) => Ask(t, false)
    case Requested(_) => Drop(t)
    case Launching(_) => Launch(t, false)
    case _ => Leave(t)
  }

  function Left(pc: CallPc): nat {
    match pc
    case Retiring(_) => 7
    case Admitted => 6
    case Executing => 5
    case Ran(_) => 4
    case Requested(_) => 3
    case Launching(_) => 2
    case Leaving => 1
    case _ => 0
  }

  /** A call can make its move unless another call executes in its slot. */
  lemma CanMove(s: Sys, t: nat)
    requires Inv(s) && s.lock.None? && t in s.calls && InFlight(s.calls[t].pc)
    requires s.calls[t].slot < |s.meta| && s.calls[t].pc.Admitted? ==> s.meta[s.calls[t].slot].holder.None?
    ensures Enabled(s, MoveOf(t, s.calls[t].pc))
  {
    assert CallOk(s, t, s.calls[t]);
  }

  lemma LaunchMoves(s: Sys, i: nat, w: nat, t: nat)
    requires Inv(s) && Running(s, i, w) && Enabled(s, Launch(t, false))
    ensures var s' := Apply(s, Launch(t, false));
            && s'.calls == s.calls[t := s.calls[t].(pc := Leaving)] && Running(s', i, w) && s'.closers == s.closers
  {
  }

  lemma BeginMoves(s: Sys, i: nat, w: nat, t: nat)
    requires Running(s, i, w) && Enabled(s, Begin(t))
    ensures var s' := Apply(s, Begin(t)); Running(s', i, w) && s'.closers == s.closers
  {
  }

  lemma MovesOn(s: Sys, i: nat, w: nat, t: nat)
    requires Running(s, i, w) && t in s.calls && !s.calls[t].pc.Launching? && !s.calls[t].pc.Admitted?
    requires Enabled(s, MoveOf(t, s.calls[t].pc))
    ensures var s' := Apply(s, MoveOf(t, s.calls[t].pc)); Running(s', i, w) && s'.closers == s.closers
  {
  }

  lemma MovesDown(s: Sys, t: nat)
    requires t in s.calls && InFlight(s.calls[t].pc) && Enabled(s, MoveOf(t, s.calls[t].pc))
    ensures var s' := Apply(s, MoveOf(t, s.calls[t].pc));
            && t in s'.calls && Left(s'.calls[t].pc) < Left(s.calls[t].pc)
            && s'.calls == s.calls[t := s'.calls[t]]
  {
  }

  lemma Moves(s: Sys, i: nat, w: nat, t: nat)
    requires Inv(s) && Running(s, i, w) && t in Flying(s) && Enabled(s, MoveOf(t, s.calls[t].pc))
    ensures var s' := Apply(s, MoveOf(t, s.calls[t].pc));
            && Inv(s') && Running(s', i, w) && s'.closers == s.closers
            && t in s'.calls && Left(s'.calls[t].pc) < Left(s.calls[t].pc)
            && Flying(s') == (if InFlight(s'.calls[t].pc) then Flying(s) else Flying(s) - {t})
  {
    var e := MoveOf(t, s.calls[t].pc);
    StepInv(s, e);
    MovesDown(s, t);
    if s.calls[t].pc.Launching? { LaunchMoves(s, i, w, t); }
    else if s.calls[t].pc.Admitted? { BeginMoves(s, i, w, t); }
    else { MovesOn(s, i, w, t); }
    FlyingAfter(s.calls, t, Apply(s, e).calls[t]);
  }

  lemma FlyingAfter(calls: map<nat, Call>, t: nat, c: Call)
    requires t in FlyingIn(calls)
    ensures FlyingIn(calls[t := c]) == if InFlight(c.pc) then FlyingIn(calls) else FlyingIn(calls) - {t}
  {
  }

  lemma Holder(s: Sys, t: nat) returns (u: nat)
    requires Inv(s) && t in s.calls && s.calls[t].pc.Admitted? && s.calls[t].slot < |s.meta|
    requires s.meta[s.calls[t].slot].holder.Some?
    ensures u in s.calls && s.calls[u].pc == Executing
  {
    assert PhaseOk(s, s.calls[t].slot);
    u := s.meta[s.calls[t].slot].holder.value;
  }

  /** What draining gets to. */
  ghost predicate Drains(s: Sys, s': Sys, i: nat, w: nat) {
    Follows(s, s') && Inv(s') && Running(s', i, w) && s'.closers == s.closers
  }

  lemma DrainsThen(s: Sys, s': Sys, s'': Sys, i: nat, w: nat)
    requires Drains(s, s', i, w) && Drains(s', s'', i, w)
    ensures Drains(s, s'', i, w)
  {
    FollowsThen(s, s', s'');
  }

  /** Call `t` can leave, after whoever executes in its slot, while the worker runs on. */
  lemma {:induction false} DrainOne(s: Sys, i: nat, w: nat, t: nat) returns (s': Sys)
    requires Inv(s) && Running(s, i, w) && t in Flying(s)
    ensures Drains(s, s', i, w) && Flying(s') <= Flying(s) - {t}
    decreases |Flying(s)|, Left(s.calls[t].pc), 1
  {
    var slot := s.calls[t].slot;
    assert CallOk(s, t, s.calls[t]);
    if s.calls[t].pc.Admitted? && s.meta[slot].holder.Some? {
      var u := Holder(s, t);
      var s1 := DrainOne(s, i, w, u);
      Fewer(Flying(s1), Flying(s), u);
      s' := s1;
      if t in Flying(s1) {
        s' := DrainOne(s1, i, w, t);
        DrainsThen(s, s1, s', i, w);
      }
    } else {
      CanMove(s, t);
      s' := DrainMove(s, i, w, t);
    }
  }

  lemma {:induction false} DrainMove(s: Sys, i: nat, w: nat, t: nat) returns (s': Sys)
    requires Inv(s) && Running(s, i, w) && t in Flying(s) && Enabled(s, MoveOf(t, s.calls[t].pc))
    ensures Drains(s, s', i, w) && Flying(s') <= Flying(s) - {t}
    decreases |Flying(s)|, Left(s.calls[t].pc), 0
  {
    var e := MoveOf(t, s.calls[t].pc);
    Moves(s, i, w, t);
    s' := Apply(s, e);
    FollowsItself(s');
    if InFlight(s'.calls[t].pc) { s' := DrainOne(s', i, w, t); }
    FollowsFirst(s, e, s');
  }

  lemma Fewer(a: set<nat>, b: set<nat>, u: nat)
    requires a <= b - {u} && u in b
    ensures |a| < |b|
  {
    assert b == a + (b - a);
    assert u in b - a;
  }

  lemma {:induction false} DrainAll(s: Sys, i: nat, w: nat) returns (s': Sys)
    requires Inv(s) && Running(s, i, w)
    ensures Drains(s, s', i, w) && Flying(s') == {}
    decreases |Flying(s)|
  {
    if t :| t in Flying(s) {
      var s1 := DrainOne(s, i, w, t);
      Fewer(Flying(s1), Flying(s), t);
      s' := DrainAll(s1, i, w);
      DrainsThen(s, s1, s', i, w);
    } else {
      FollowsItself(s);
      s' := s;
    }
  }

  // ---------- and closing ----------

  lemma HolderFlies(s: Sys, i: nat)
    requires Inv(s) && i < |s.r.slots| && s.meta[i].holder.Some?
    ensures s.meta[i].holder.value in Flying(s)
  {
    assert PhaseOk(s, i);
  }

  lemma NothingFlies(s: Sys, i: nat)
    requires Inv(s) && Flying(s) == {} && i < |s.r.slots|
    ensures s.r.slots[i].inFlight == 0 && s.meta[i].holder.None?
  {
    assert Holders(s.calls, i) <= Flying(s);
    if s.meta[i].holder.Some? {
      HolderFlies(s, i);
      assert false;
    }
  }

  lemma ClosingStep(s: Sys, i: nat, w: nat)
    requires Inv(s) && Running(s, i, w) && Flying(s) == {}
    requires s.closers[0].pc.Closing? && s.closers[0].pc.next < |s.closers[0].todo|
    ensures Enabled(s, CloseNext(0))
    ensures var s' := Apply(s, CloseNext(0));
            && Inv(s') && Running(s', i, w) && Flying(s') == {} && |s'.closers[0].todo| == |s.closers[0].todo|
            && s'.closers[0].pc == Closing(s.closers[0].pc.next + 1)
  {
    var j := s.closers[0].todo[s.closers[0].pc.next];
    NothingFlies(s, j);
    StepInv(s, CloseNext(0));
  }

  lemma {:induction false} CloseRest(s: Sys, i: nat, w: nat) returns (s': Sys)
    requires Inv(s) && Running(s, i, w) && Flying(s) == {} && s.closers[0].pc.Closing?
    ensures Follows(s, s') && Inv(s') && Running(s', i, w) && Progress(s'.closers[0]) == |s'.closers[0].todo|
    decreases |s.closers[0].todo| - s.closers[0].pc.next
  {
    if s.closers[0].pc.next < |s.closers[0].todo| {
      ClosingStep(s, i, w);
      s' := CloseRest(Apply(s, CloseNext(0)), i, w);
      FollowsFirst(s, CloseNext(0), s');
    } else {
      FollowsItself(s);
      s' := s;
    }
  }

  lemma DrainedStep(s: Sys, i: nat, w: nat)
    requires Inv(s) && Running(s, i, w) && Flying(s) == {} && s.closers[0].pc == Draining
    ensures Enabled(s, Drained(0))
    ensures var s' := Apply(s, Drained(0));
            Inv(s') && Running(s', i, w) && Flying(s') == {} && s'.closers[0].pc == Closing(0)
  {
    forall k | 0 <= k < |s.closers[0].todo|
      ensures s.closers[0].todo[k] < |s.r.slots| && s.r.slots[s.closers[0].todo[k]].inFlight == 0
    {
      NothingFlies(s, s.closers[0].todo[k]);
    }
    StepInv(s, Drained(0));
  }

  /** A worker that runs when shutdown begins can still run when its slot is closed. */
  lemma RunningOverlaps(s: Sys, i: nat, w: nat) returns (s': Sys)
    requires Inv(s) && Running(s, i, w)
    ensures Follows(s, s') && Overlaps(s', i)
  {
    var s1 := DrainAll(s, i, w);
    s' := s1;
    if s1.closers[0].pc == Draining {
      DrainedStep(s1, i, w);
      s' := CloseRest(Apply(s1, Drained(0)), i, w);
      FollowsFirst(s1, Drained(0), s');
    } else if s1.closers[0].pc.Closing? {
      s' := CloseRest(s1, i, w);
    } else {
      FollowsItself(s1);
    }
    FollowsThen(s, s1, s');
    assert PhaseOk(s', i);
  }

  lemma ActiveRuns(s: Sys, i: nat) returns (w: nat)
    requires Inv(s) && s.r.closed && s.lock.None? && i < |s.r.slots| && s.r.slots[i].active
    ensures Running(s, i, w)
  {
    assert OwnerOk(s, i);
    w := s.r.slots[i].thread.value;
    assert WorkerOk(s, w);
  }

  lemma LaunchRuns(s: Sys, i: nat, t: nat)
    requires Inv(s) && s.r.closed && s.lock.None? && i < |s.r.slots| && !s.r.slots[i].active
    requires t in s.calls && s.calls[t].pc.Launching? && s.calls[t].slot == i
    ensures Enabled(s, Launch(t, true))
    ensures Inv(Apply(s, Launch(t, true))) && Running(Apply(s, Launch(t, true)), i, |s.workers|)
  {
    StepInv(s, Launch(t, true));
  }

  lemma ShutdownKeeps(s: Sys, i: nat)
    requires Inv(s) && Enabled(s, Shutdown) && i < |s.r.slots|
    ensures var s1 := Apply(s, Shutdown);
            && Inv(s1) && s1.r.closed && s1.lock.None? && s1.calls == s.calls && s1.r.slots == s.r.slots
            && (LaunchingIn(s1, i) <==> LaunchingIn(s, i))
  {
    StepInv(s, Shutdown);
  }

  lemma OverlapFollows(s: Sys, i: nat) returns (s': Sys)
    requires Inv(s) && s.r.closed && s.lock.None? && i < |s.r.slots| && (s.r.slots[i].active || LaunchingIn(s, i))
    ensures Follows(s, s') && Overlaps(s', i)
  {
    if s.r.slots[i].active {
      var w := ActiveRuns(s, i);
      s' := RunningOverlaps(s, i, w);
    } else {
      var t :| t in s.calls && s.calls[t].pc.Launching? && s.calls[t].slot == i;
      LaunchRuns(s, i, t);
      s' := RunningOverlaps(Apply(s, Launch(t, true)), i, |s.workers|);
      FollowsFirst(s, Launch(t, true), s');
    }
  }

  /** `close()` waits for calls, not for completion workers.  In any reachable state in which it can
      take the router lock, slot `i` can come to be closed during a completion cycle of it if and
      only if its completion is active there, or a caller has passed its launch check for it -- in
      which case the worker starts only after shutdown began. */
  lemma OverlapExact(states: seq<Sys>, steps: seq<Step>, k: nat, i: nat)
    requires IsRun(states, steps) && k <= |steps| && Enabled(states[k], Shutdown) && i < |states[k].r.slots|
    ensures (exists s' :: Follows(Apply(states[k], Shutdown), s') && Overlaps(s', i))
            <==> states[k].r.slots[i].active || LaunchingIn(states[k], i)
  {
    var s := states[k];
    RunInv(states, steps, k);
    ShutdownKeeps(s, i);
    if s.r.slots[i].active || LaunchingIn(s, i) {
      var s' := OverlapFollows(Apply(s, Shutdown), i);
    } else {
      forall s' | Follows(Apply(s, Shutdown), s') ensures !Overlaps(s', i) {
        QuietNeverOverlaps(Apply(s, Shutdown), s', i);
      }
    }
  }
}
