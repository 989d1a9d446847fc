/** What the router guarantees in every interleaving of every run. */
module RouterTheorems {
  import opened Wrappers
  import opened RouterSpec
  import opened RouterMachine
  import opened RouterInvariant
  import opened RouterSteps

  // ---------- coherence ----------

  /** The slot map is coherent in every reachable state: at most 64 slots, each key its slot's
      session, each session mapped once, and every slot's in-flight count the number of calls
      that were admitted to it and have not released it. */
  lemma SlotMapCoherent(states: seq<Sys>, steps: seq<Step>, k: nat, i: nat)
    requires IsRun(states, steps) && k <= |steps|
    ensures var s := states[k];
            && |s.r.table| <= MAX_SLOTS && Keyed(s.r.table)
            && (forall e :: e in s.r.table ==> e.id < |s.r.slots| && e.key == s.r.slots[e.id].session)
            && (i < |s.r.slots| ==> s.r.slots[i].inFlight == |Holders(s.calls, i)|)
  {
    RunInv(states, steps, k);
  }

  /** An admitted call's slot is of the call's own session and epoch, so the route check in
      `_execute_in_slot` never fails, and no two calls execute in one slot at once. */
  lemma ExecutesInOwnSlot(states: seq<Sys>, steps: seq<Step>, k: nat, t: nat, u: nat)
    requires IsRun(states, steps) && k <= |steps| && t in states[k].calls && u in states[k].calls
    ensures var s := states[k];
            var c, d := s.calls[t], s.calls[u];
            && (InFlight(c.pc) ==> c.slot < |s.r.slots| && s.r.slots[c.slot].session == c.session
                                   && s.r.slots[c.slot].bridgeId == c.bridgeId)
            && (c.pc.Executing? && d.pc.Executing? && c.slot == d.slot ==> t == u)
            && c.runs <= 1
            && (k < |steps| && steps[k] == Begin(t) ==> states[k + 1].calls[t].pc.Executing?)
  {
    RunInv(states, steps, k);
    assert CallOk(states[k], t, states[k].calls[t]) && CallOk(states[k], u, states[k].calls[u]);
    if k < |steps| && steps[k] == Begin(t) { BeginInv(states[k], t); }
  }

  /** Steps that need not wait for whoever holds the router lock. */
  predicate LockFree(e: Step) {
    e.Arrive? || e.CloseStale? || e.Begin? || e.End? || e.Ask? || e.Drop? || e.Launch? || e.CloseNext? || e.Return?
  }

  /** Admission looks at its own and its eviction candidates' completion locks one after another,
      and may be taken as one step: while it holds the router lock, no step of another thread
      makes an idle slot busy or a busy one idle, or changes the map. */
  lemma AdmissionIsAtomic(s: Sys, e: Step, i: nat)
    requires Inv(s) && Enabled(s, e) && LockFree(e) && i < |s.r.slots|
    ensures var r' := Apply(s, e).r;
            && r'.table == s.r.table && r'.closed == s.r.closed && |r'.slots| == |s.r.slots|
            && Idle(r', i) == Idle(s.r, i)
  {
    if e.Launch? { HeldSlot(s, e.t); }
  }

  // ---------- completion ----------

  /** At most one completion worker of a slot is in, or at the end of, its cycle. */
  lemma OneCycleAtATime(states: seq<Sys>, steps: seq<Step>, k: nat, v: nat, w: nat)
    requires IsRun(states, steps) && k <= |steps| && v < |states[k].workers| && w < |states[k].workers|
    requires states[k].workers[v].pc != Ended && states[k].workers[w].pc != Ended
    requires states[k].workers[v].slot == states[k].workers[w].slot
    ensures v == w
  {
    RunInv(states, steps, k);
    assert WorkerOk(states[k], v) && WorkerOk(states[k], w);
  }

  /** The generation captured by the last worker started for slot `i`, or 0. */
  function LastCaptured(workers: seq<Worker>, i: nat): int {
    if workers == [] then 0
    else if workers[|workers| - 1].slot == i then workers[|workers| - 1].gen
    else LastCaptured(workers[..|workers| - 1], i)
  }

  ghost predicate History(s: Sys) {
    && (forall i :: 0 <= i < |s.meta| ==> s.meta[i].lastGen == LastCaptured(s.workers, i))
    && (forall w :: 0 <= w < |s.workers| ==> s.workers[w].slot < |s.meta|)
  }

  lemma {:induction false} CapturedKeeps(before: seq<Worker>, after: seq<Worker>, i: nat)
    requires |before| == |after|
    requires forall w :: 0 <= w < |before| ==> after[w].slot == before[w].slot && after[w].gen == before[w].gen
    ensures LastCaptured(before, i) == LastCaptured(after, i)
  {
    if before != [] { CapturedKeeps(before[..|before| - 1], after[..|after| - 1], i); }
  }

  lemma CapturedByNew(workers: seq<Worker>, w: Worker, i: nat)
    ensures LastCaptured(workers + [w], i) == if w.slot == i then w.gen else LastCaptured(workers, i)
  {
    assert (workers + [w])[..|workers|] == workers;
  }

  lemma {:induction false} CapturedFresh(workers: seq<Worker>, i: nat)
    requires forall w :: 0 <= w < |workers| ==> workers[w].slot != i
    ensures LastCaptured(workers, i) == 0
  {
    if workers != [] { CapturedFresh(workers[..|workers| - 1], i); }
  }

  /** A step that starts at most one worker, for slot `i`, and records what it captured. */
  lemma StartedHistory(s: Sys, s': Sys, moved: seq<Worker>, i: nat, started: Option<int>)
    requires History(s) && i < |s.meta| && |s'.meta| == |s.meta| && |moved| == |s.workers|
    requires forall w :: 0 <= w < |moved| ==> moved[w].slot == s.workers[w].slot && moved[w].gen == s.workers[w].gen
    requires forall j :: 0 <= j < |s.meta| && j != i ==> s'.meta[j].lastGen == s.meta[j].lastGen
    requires s'.meta[i].lastGen == if started.Some? then started.value else s.meta[i].lastGen
    requires s'.workers == if started.Some? then moved + [Worker(i, started.value, Cycle)] else moved
    ensures History(s')
  {
    forall j | 0 <= j < |s'.meta| ensures s'.meta[j].lastGen == LastCaptured(s'.workers, j) {
      CapturedKeeps(s.workers, moved, j);
      if started.Some? { CapturedByNew(moved, Worker(i, started.value, Cycle), j); }
    }
  }

  lemma LaunchHistory(s: Sys, t: nat, starts: bool)
    requires Enabled(s, Launch(t, starts)) && History(s)
    ensures History(Apply(s, Launch(t, starts)))
  {
    var i := s.calls[t].slot;
    var slot := s.r.slots[i];
    var started := if slot.active then None else Start(slot, None, |s.workers|, starts).1;
    StartedHistory(s, Apply(s, Launch(t, starts)), s.workers, i, started);
  }

  lemma RearmHistory(s: Sys, w: nat, starts: bool)
    requires Enabled(s, Rearm(w, starts)) && History(s)
    ensures History(Apply(s, Rearm(w, starts)))
  {
    var i := s.workers[w].slot;
    var started := if LaunchRefused(s.r, i) then None else Start(s.r.slots[i], Some(w), |s.workers|, starts).1;
    StartedHistory(s, Apply(s, Rearm(w, starts)), s.workers[w := s.workers[w].(pc := Ended)], i, started);
  }

  lemma FinishHistory(s: Sys, w: nat, stillActive: bool)
    requires Enabled(s, FinishCycle(w, stillActive)) && History(s)
    ensures History(Apply(s, FinishCycle(w, stillActive)))
  {
    var s' := Apply(s, FinishCycle(w, stillActive));
    StartedHistory(s, s', s'.workers, s.workers[w].slot, None);
  }

  lemma EnterHistory(s: Sys, t: nat)
    requires Inv(s) && Enabled(s, Enter(t)) && History(s)
    ensures History(Apply(s, Enter(t)))
  {
    CapturedFresh(s.workers, |s.r.slots|);
    EnterMeta(s, t);
  }

  lemma EnterMeta(s: Sys, t: nat)
    requires Inv(s) && Enabled(s, Enter(t))
    ensures var s' := Apply(s, Enter(t));
            && s'.workers == s.workers && |s.meta| <= |s'.meta| <= |s.meta| + 1
            && (forall i :: 0 <= i < |s.meta| ==> s'.meta[i].lastGen == s.meta[i].lastGen)
            && (|s'.meta| > |s.meta| ==> s'.meta[|s.meta|].lastGen == 0)
  {
    AdmitDecides(s.r, s.calls[t].session, s.calls[t].bridgeId);
  }

  lemma QuietHistory(s: Sys, e: Step)
    requires Enabled(s, e) && History(s) && !e.Enter? && !e.Launch? && !e.Rearm? && !e.FinishCycle?
    ensures History(Apply(s, e))
  {
    var s' := Apply(s, e);
    assert s'.workers == s.workers && |s'.meta| == |s.meta|;
    assert forall i :: 0 <= i < |s.meta| ==> s'.meta[i].lastGen == s.meta[i].lastGen;
  }

  lemma HistoryStep(s: Sys, e: Step)
    requires Inv(s) && Enabled(s, e) && History(s)
    ensures History(Apply(s, e))
  {
    match e
    case Launch(t, starts) => LaunchHistory(s, t, starts);
    case FinishCycle(w, stillActive) => FinishHistory(s, w, stillActive);
    case Rearm(w, starts) => RearmHistory(s, w, starts);
    case Enter(t) => EnterHistory(s, t);
    case _ => QuietHistory(s, e);
  }

  /** A gate after the request was recorded fails, or a worker thread cannot be started. */
  predicate Fails(e: Step) { e.Drop? || (e.Launch? && !e.starts) || (e.Rearm? && !e.starts) }

  ghost predicate NothingDropped(s: Sys) { forall i :: 0 <= i < |s.meta| ==> s.meta[i].dropped == {} }

  lemma RearmDrops(s: Sys, w: nat)
    requires Inv(s) && Enabled(s, Rearm(w, true)) && NothingDropped(s)
    ensures NothingDropped(Apply(s, Rearm(w, true)))
  {
    assert WorkerOk(s, w);
  }

  lemma EnterDrops(s: Sys, t: nat)
    requires Inv(s) && Enabled(s, Enter(t)) && NothingDropped(s)
    ensures NothingDropped(Apply(s, Enter(t)))
  {
    AdmitDecides(s.r, s.calls[t].session, s.calls[t].bridgeId);
  }

  lemma DroppedStep(s: Sys, e: Step)
    requires Inv(s) && Enabled(s, e) && !Fails(e) && NothingDropped(s)
    ensures NothingDropped(Apply(s, e))
  {
    match e
    case Rearm(w, _) => RearmDrops(s, w);
    case Enter(t) => EnterDrops(s, t);
    case _ =>
  }

  ghost predicate NoFailure(steps: seq<Step>, k: nat)
    requires k <= |steps|
  {
    forall j :: 0 <= j < k ==> !Fails(steps[j])
  }

  lemma {:induction false} RunHistory(states: seq<Sys>, steps: seq<Step>, k: nat)
    requires IsRun(states, steps) && k <= |steps|
    ensures Inv(states[k]) && History(states[k])
    ensures NoFailure(steps, k) ==> NothingDropped(states[k])
  {
    RunInv(states, steps, k);
    if k > 0 {
      RunHistory(states, steps, k - 1);
      HistoryStep(states[k - 1], steps[k - 1]);
      if NoFailure(steps, k) { DroppedStep(states[k - 1], steps[k - 1]); }
    }
  }

  /** No request is lost.  While the router is open and a slot mapped, whenever no completion
      is active and no caller is between its request and its launch, the last worker started
      captured the slot's current request generation -- in every run in which no gate fails
      after a request and no thread fails to start.  In any run, every request it missed is one of
      those. */
  lemma NoRequestLost(states: seq<Sys>, steps: seq<Step>, k: nat, i: nat)
    requires IsRun(states, steps) && k <= |steps| && i < |states[k].r.slots|
    requires !states[k].r.closed && Mapped(states[k].r, i) && !states[k].r.slots[i].active
    requires forall t :: t in states[k].calls && states[k].calls[t].slot == i ==>
               !states[k].calls[t].pc.Requested? && !states[k].calls[t].pc.Launching?
    ensures i < |states[k].meta|
    ensures forall g :: LastCaptured(states[k].workers, i) < g <= states[k].r.slots[i].generation
                        ==> g in states[k].meta[i].dropped
    ensures NoFailure(steps, k) ==>
              LastCaptured(states[k].workers, i) == states[k].r.slots[i].generation
  {
    var s := states[k];
    RunHistory(states, steps, k);
    FindExact(s.r.table, s.r.slots[i].session, i);
    assert PhaseOk(s, i) && OwnerOk(s, i);
    forall g | s.meta[i].lastGen < g <= s.r.slots[i].generation ensures g in s.meta[i].dropped {
      assert Covered(s, i, g);
    }
    if s.meta[i].lastGen < s.r.slots[i].generation {
      assert s.r.slots[i].generation in s.meta[i].dropped;
    }
  }

  /** A worker whose cycle ends hands over if and only if the router is open, its slot mapped,
      and a newer request is recorded or its cycle left a task active; otherwise it ends and its
      slot has no active completion. */
  lemma HandsOverExactly(states: seq<Sys>, steps: seq<Step>, k: nat, w: nat, stillActive: bool)
    requires IsRun(states, steps) && k < |steps| && steps[k] == FinishCycle(w, stillActive)
    ensures var s, s' := states[k], states[k + 1];
            var i := s.workers[w].slot;
            var again := && !s.r.closed && Entry(s.r.slots[i].session, i) in s.r.table
                         && (s.r.slots[i].generation != s.workers[w].gen || stillActive);
            s'.workers == s.workers[w := s.workers[w].(pc := if again then Rearming else Ended)]
            && s'.lock == (if again then Some(w) else None)
            && (s'.r.slots[i].active <==> again)
  {
    RunInv(states, steps, k);
    var s, i := states[k], states[k].workers[w].slot;
    assert WorkerOk(s, w) && OwnerOk(s, i);
    FindExact(s.r.table, s.r.slots[i].session, i);
  }

  /** The successor captures every request made by the time it starts, including those made
      between the two completion sections of the worker it succeeds, and owns the slot. */
  lemma SuccessorCapturesAll(states: seq<Sys>, steps: seq<Step>, k: nat, w: nat)
    requires IsRun(states, steps) && k < |steps| && steps[k] == Rearm(w, true)
    ensures var s, s' := states[k], states[k + 1];
            var i := s.workers[w].slot;
            s'.workers == s.workers[w := s.workers[w].(pc := Ended)] + [Worker(i, s.r.slots[i].generation, Cycle)]
            && s'.r.slots[i].generation == s.r.slots[i].generation && s'.r.slots[i].thread == Some(|s.workers|)
            && s'.lock.None?
  {
    RunInv(states, steps, k);
    assert WorkerOk(states[k], w);
  }

  // ---------- retirement ----------

  ghost predicate IsRetired(p: Phase) { p.Stale? || p == Closed(false) }

  /** Only the retiring call's own close moves an unmapped slot on. */
  lemma RetiredStep(s: Sys, e: Step, i: nat)
    requires Inv(s) && Enabled(s, e) && i < |s.meta| && IsRetired(s.meta[i].phase)
    ensures i < |Apply(s, e).meta| && IsRetired(Apply(s, e).meta[i].phase)
  {
    match e
    case Enter(t) => RetiredEnter(s, t, i);
    case CloseNext(c) => RetiredCloseNext(s, c, i);
    case Launch(_, _) => RetiredWorker(s, e, i);
    case Rearm(_, _) => RetiredWorker(s, e, i);
    case _ =>
  }

  lemma RetiredWorker(s: Sys, e: Step, i: nat)
    requires Enabled(s, e) && (e.Launch? || e.Rearm?) && i < |s.meta| && IsRetired(s.meta[i].phase)
    ensures i < |Apply(s, e).meta| && IsRetired(Apply(s, e).meta[i].phase)
  {
  }

  lemma RetiredEnter(s: Sys, t: nat, i: nat)
    requires Inv(s) && Enabled(s, Enter(t)) && i < |s.meta| && IsRetired(s.meta[i].phase)
    ensures i < |Apply(s, Enter(t)).meta| && IsRetired(Apply(s, Enter(t)).meta[i].phase)
  {
    AdmitDecides(s.r, s.calls[t].session, s.calls[t].bridgeId);
  }

  lemma RetiredCloseNext(s: Sys, c: nat, i: nat)
    requires Inv(s) && Enabled(s, CloseNext(c)) && i < |s.meta| && IsRetired(s.meta[i].phase)
    ensures i < |Apply(s, CloseNext(c)).meta| && IsRetired(Apply(s, CloseNext(c)).meta[i].phase)
  {
    assert c == 0;
  }

  lemma {:induction false} RetiredForever(states: seq<Sys>, steps: seq<Step>, k: nat, m: nat, i: nat)
    requires IsRun(states, steps) && k <= m <= |steps| && i < |states[k].meta| && IsRetired(states[k].meta[i].phase)
    ensures i < |states[m].meta| && IsRetired(states[m].meta[i].phase)
  {
    if k < m {
      RetiredForever(states, steps, k, m - 1, i);
      RunInv(states, steps, m - 1);
      RetiredStep(states[m - 1], steps[m - 1], i);
    }
  }

  /** Retirement is safe.  From the moment an admission unmaps a slot, that slot has no call in
      flight, no active completion and no live worker, and never has again; so closing it
      outside all locks overlaps neither a call nor a completion cycle. */
  lemma RetirementIsSafe(states: seq<Sys>, steps: seq<Step>, k: nat, m: nat, t: nat)
    requires IsRun(states, steps) && k <= m <= |steps|
    requires t in states[k].calls && states[k].calls[t].pc.Retiring?
    ensures var i := states[k].calls[t].pc.victim;
            var s := states[m];
            && i < |s.r.slots| == |s.meta| && !Mapped(s.r, i) && s.r.slots[i].inFlight == 0 && !s.r.slots[i].active
            && (forall u :: u in s.calls && InFlight(s.calls[u].pc) ==> s.calls[u].slot != i)
            && (forall w :: 0 <= w < |s.workers| && s.workers[w].slot == i ==> s.workers[w].pc == Ended)
            && s.meta[i].closes <= 1
  {
    var i := states[k].calls[t].pc.victim;
    var s := states[m];
    RunInv(states, steps, k);
    RunInv(states, steps, m);
    assert CallOk(states[k], t, states[k].calls[t]);
    RetiredForever(states, steps, k, m, i);
    assert PhaseOk(s, i) && OwnerOk(s, i);
    FindExact(s.r.table, s.r.slots[i].session, i);
    forall u | u in s.calls && InFlight(s.calls[u].pc) ensures s.calls[u].slot != i { NoHolder(s.calls, i, u); }
    forall w | 0 <= w < |s.workers| && s.workers[w].slot == i ensures s.workers[w].pc == Ended {
      assert WorkerOk(s, w);
    }
  }

  // ---------- shutdown ----------

  /** Every slot ever created has been closed exactly once, so has every adapter ever created,
      and no admitted call is outstanding. */
  ghost predicate Complete(s: Sys) {
    && |s.meta| == |s.r.slots| && s.r.closed
    && (forall i :: 0 <= i < |s.r.slots| ==>
          s.meta[i].closes == 1 && s.meta[i].adapterCloses == if s.r.slots[i].hasAdapter then 1 else 0)
    && (forall t :: t in s.calls ==> !InFlight(s.calls[t].pc))
  }

  lemma FirstCloserDone(s: Sys)
    requires Inv(s) && s.closers != [] && s.closers[0].pc == Returned
    ensures Complete(s)
  {
    forall t | t in s.calls ensures !InFlight(s.calls[t].pc) {
      if InFlight(s.calls[t].pc) { HeldSlot(s, t); assert false; }
    }
    forall i | 0 <= i < |s.r.slots|
      ensures s.meta[i].closes == 1 && s.meta[i].adapterCloses == if s.r.slots[i].hasAdapter then 1 else 0
    {
      assert PhaseOk(s, i);
    }
  }

  lemma ReturnedStays(s: Sys, e: Step, c: nat)
    requires Enabled(s, e) && c < |s.closers| && s.closers[c].pc == Returned
    ensures c < |Apply(s, e).closers| && Apply(s, e).closers[c].pc == Returned
  {
  }

  lemma {:induction false} ReturnedForever(states: seq<Sys>, steps: seq<Step>, k: nat, m: nat, c: nat)
    requires IsRun(states, steps) && k <= m <= |steps| && c < |states[k].closers| && states[k].closers[c].pc == Returned
    ensures c < |states[m].closers| && states[m].closers[c].pc == Returned
  {
    if k < m {
      ReturnedForever(states, steps, k, m - 1, c);
      ReturnedStays(states[m - 1], steps[m - 1], c);
    }
  }

  /** When the `close()` that found the router open returns, everything has been closed exactly
      once -- slots that another thread's admission was retiring at the time included -- nobody
      is in flight, and this stays so: every later admission is refused. */
  lemma CloseIsComplete(states: seq<Sys>, steps: seq<Step>, k: nat, m: nat)
    requires IsRun(states, steps) && k <= m <= |steps|
    requires states[k].closers != [] && states[k].closers[0].pc == Returned
    ensures Complete(states[m])
    ensures forall session, bridgeId :: InRange(states[m].r) ==>
              Admit(states[m].r, session, bridgeId).1 == Refused(BridgeUnavailable)
  {
    RunInv(states, steps, m);
    ReturnedForever(states, steps, k, m, 0);
    FirstCloserDone(states[m]);
  }

  /** Slots are closed at most once even before that, and only once nobody is in flight there. */
  lemma NeverClosedTwice(states: seq<Sys>, steps: seq<Step>, k: nat, i: nat)
    requires IsRun(states, steps) && k <= |steps| && i < |states[k].r.slots|
    ensures i < |states[k].meta| && states[k].meta[i].closes <= 1 && states[k].meta[i].adapterCloses <= 1
    ensures states[k].meta[i].closes == 1 ==> states[k].r.slots[i].inFlight == 0
  {
    RunInv(states, steps, k);
    assert PhaseOk(states[k], i);
  }

  lemma LaunchNeedsCaller(s: Sys, t: nat)
    requires Inv(s) && s.closers != [] && s.closers[0].pc != Draining && t in s.calls
    ensures !InFlight(s.calls[t].pc)
  {
    if InFlight(s.calls[t].pc) { HeldSlot(s, t); assert false; }
  }

  lemma RearmNeedsOpen(s: Sys, w: nat)
    requires Inv(s) && w < |s.workers| && s.r.closed
    ensures s.workers[w].pc != Rearming
  {
    assert WorkerOk(s, w);
  }

  /** Past draining no completion worker is ever started; `close()` waits for calls, not workers. */
  lemma NoWorkerStartsAfterDrain(s: Sys, e: Step)
    requires Inv(s) && Enabled(s, e) && s.closers != [] && s.closers[0].pc != Draining
    ensures |Apply(s, e).workers| == |s.workers|
  {
    match e
    case Launch(t, _) => LaunchNeedsCaller(s, t);
    case Rearm(w, _) => RearmNeedsOpen(s, w);
    case Enter(t) => AdmitDecides(s.r, s.calls[t].session, s.calls[t].bridgeId);
    case _ =>
  }
}
