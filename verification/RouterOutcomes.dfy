/** What the other sections of a call and of a completion worker decide in any run. */
module RouterOutcomes {
  import opened Wrappers
  import opened RouterSpec
  import opened RouterMachine
  import opened RouterInvariant
  import opened RouterSteps
  import opened RouterAdmission

  /** Past verification a call goes on if its session is an exact one, and already has a slot, or asks
      for what an unbound session may, or has durable evidence; otherwise it is gone. */
  lemma GateExactly(
    states: seq<Sys>, steps: seq<Step>, k: nat, t: nat, exact: bool, permitted: bool, durable: bool)
    requires IsRun(states, steps) && k < |steps| && steps[k] == Gate(t, exact, permitted, durable)
    ensures var s, s' := states[k], states[k + 1];
            && t in s.calls
            && var goes := exact && (!Unserved(s, s.calls[t].session) || permitted || durable);
            s' == s.(calls := s.calls[t := s.calls[t].(pc := if goes then Cleared else Gone)])
  {
    RunInv(states, steps, k);
    FindServes(states[k], states[k].calls[t].session);
  }

  /** The caller that retires a slot closes it; if that fails it never executes, but still leaves. */
  lemma RetireExactly(states: seq<Sys>, steps: seq<Step>, k: nat, t: nat, fails: bool)
    requires IsRun(states, steps) && k < |steps| && steps[k] == CloseStale(t, fails)
    ensures var s, s' := states[k], states[k + 1];
            && t in s.calls && s.calls[t].pc.Retiring?
            && var i := s.calls[t].pc.victim;
            && i < |s.meta| == |s'.meta| && s.meta[i].closes == 0 && s'.meta[i].closes == 1
            && s'.r == s.r && s'.calls[t] == s.calls[t].(pc := if fails then Leaving else Admitted)
            && forall j :: 0 <= j < |s.meta| && j != i ==> s'.meta[j] == s.meta[j]
  {
    RunInv(states, steps, k);
    assert CallOk(states[k], t, states[k].calls[t]);
    assert PhaseOk(states[k], states[k].calls[t].pc.victim);
  }

  /** A call asks for a completion pass if it succeeded and is eligible, and it is a task start or the
      slot's first eligible call; it then holds the new generation, and otherwise leaves. */
  lemma AskExactly(states: seq<Sys>, steps: seq<Step>, k: nat, t: nat, eligible: bool)
    requires IsRun(states, steps) && k < |steps| && steps[k] == Ask(t, eligible)
    ensures var s, s' := states[k], states[k + 1];
            && t in s.calls && s.calls[t].pc.Ran? && s.calls[t].slot < |s.r.slots|
            && var c, slot := s.calls[t], s.r.slots[s.calls[t].slot];
            && var asks := c.pc.ok && eligible && (c.isTaskStart || !slot.recoveryChecked);
            && s'.calls[t].pc == (if asks then Requested(slot.generation + 1) else Leaving)
            && s'.r.slots == s.r.slots[c.slot := if asks then slot.(recoveryChecked := true,
                                                                    generation := slot.generation + 1) else slot]
  {
  }

  /** A caller past its launch check starts a worker if and only if none of the slot's is left and
      the thread starts; the worker captures the current generation.  If the thread does not start,
      its request is recorded as dropped.  Either way the caller goes on to leave. */
  lemma LaunchExactly(states: seq<Sys>, steps: seq<Step>, k: nat, t: nat, starts: bool)
    requires IsRun(states, steps) && k < |steps| && steps[k] == Launch(t, starts)
    ensures var s, s' := states[k], states[k + 1];
            && t in s.calls && s.calls[t].pc.Launching? && s.calls[t].slot < |s.r.slots|
            && |s.meta| == |s.r.slots| == |s'.meta|
            && var i := s.calls[t].slot;
            && s'.workers == (if starts && !HasWorker(s, i) then s.workers + [Worker(i, s.r.slots[i].generation, Cycle)]
                              else s.workers)
            && s'.meta[i].dropped == (if starts || HasWorker(s, i) then s.meta[i].dropped
                                      else s.meta[i].dropped + {s.calls[t].pc.g})
            && s'.calls == s.calls[t := s.calls[t].(pc := Leaving)] && s'.lock == s.lock
  {
    RunInv(states, steps, k);
    MarksWorker(states[k], states[k].calls[t].slot);
  }

  /** A hand-over whose thread does not start leaves the slot without a worker, and every request the
      ended worker had not captured recorded as dropped. */
  lemma FailedHandOver(states: seq<Sys>, steps: seq<Step>, k: nat, w: nat)
    requires IsRun(states, steps) && k < |steps| && steps[k] == Rearm(w, false)
    ensures var s, s' := states[k], states[k + 1];
            && w < |s.workers| && s.workers[w].slot < |s'.r.slots| && |s'.meta| == |s'.r.slots|
            && var i := s.workers[w].slot;
            && s'.workers == s.workers[w := s.workers[w].(pc := Ended)] && s'.lock.None?
            && !s'.r.slots[i].active && !HasWorker(s', i)
            && forall g :: s.workers[w].gen < g <= s'.r.slots[i].generation ==> g in s'.meta[i].dropped
  {
    var s, s', i := states[k], states[k + 1], states[k].workers[w].slot;
    RunInv(states, steps, k);
    RunInv(states, steps, k + 1);
    assert WorkerOk(s, w) && OwnerOk(s, i);
    HandOverFails(s, w);
    MarksWorker(s', i);
  }

  lemma HandOverFails(s: Sys, w: nat)
    requires Inv(s) && Enabled(s, Rearm(w, false))
    ensures var s', i := Apply(s, Rearm(w, false)), s.workers[w].slot;
            && i < |s'.r.slots| && i < |s'.meta| && !s'.r.slots[i].active && s'.lock.None?
            && s'.workers == s.workers[w := s.workers[w].(pc := Ended)]
            && forall g :: s.meta[i].lastGen < g <= s'.r.slots[i].generation ==> g in s'.meta[i].dropped
  {
    assert WorkerOk(s, w);
  }

  /** A call that leaves lowers its own slot's count by one and is gone. */
  lemma LeaveExactly(states: seq<Sys>, steps: seq<Step>, k: nat, t: nat)
    requires IsRun(states, steps) && k < |steps| && steps[k] == Leave(t)
    ensures var s, s' := states[k], states[k + 1];
            && t in s.calls && s.calls[t].slot < |s.r.slots|
            && var i := s.calls[t].slot;
            && s'.calls == s.calls[t := s.calls[t].(pc := Gone)]
            && s'.r == s.r.(slots := s.r.slots[i := s.r.slots[i].(inFlight := s.r.slots[i].inFlight - 1)])
            && s'.meta == s.meta && s'.workers == s.workers
  {
  }

  // ---------- in any state, reachable or not ----------

  /** A call whose slot is of another session or epoch leaves without executing; any other executes,
      alone in its slot, which then has an adapter. */
  lemma RouteChecked(s: Sys, t: nat)
    requires Enabled(s, Begin(t))
    ensures var s', c, i := Apply(s, Begin(t)), s.calls[t], s.calls[t].slot;
            if c.session == s.r.slots[i].session && c.bridgeId == s.r.slots[i].bridgeId then
              && s'.calls[t] == c.(pc := Executing, runs := c.runs + 1) && s'.meta[i].holder == Some(t)
              && s'.r.slots[i] == s.r.slots[i].(hasAdapter := true)
            else s' == s.(calls := s.calls[t := c.(pc := Leaving)])
  {
  }

  /** Nobody but the recorded owner gives a slot's completion up, or starts a worker while it is
      active; and a closed router refuses every launch. */
  lemma OnlyTheOwner(r: Router, id: nat, w: nat, handoff: Option<nat>, starts: bool)
    requires id < |r.slots|
    ensures var slot := r.slots[id];
            && (slot.thread != Some(w) ==> Clear(slot, w) == slot)
            && (slot.active && (handoff.None? || slot.thread != handoff) ==>
                  Start(slot, handoff, w, starts) == (slot, None))
            && (r.closed ==> LaunchRefused(r, id))
  {
  }

  /** A hand-over that is refused ends the worker and gives its slot up. */
  lemma RefusedHandOver(s: Sys, w: nat, starts: bool)
    requires Enabled(s, Rearm(w, starts)) && LaunchRefused(s.r, s.workers[w].slot)
    ensures var s', i := Apply(s, Rearm(w, starts)), s.workers[w].slot;
            && s'.workers == s.workers[w := s.workers[w].(pc := Ended)] && s'.lock.None?
            && (s.r.slots[i].thread == Some(w) ==> !s'.r.slots[i].active && s'.r.slots[i].thread.None?)
  {
  }
}
