/** The router as a concurrent program: call threads, completion workers and closers, each
    moving one atomic section at a time.  The atomic sections are those of the router lock,
    of a slot's completion lock and of a slot's execution lock. */
module RouterMachine {
  import opened Wrappers
  import opened RouterSpec

  // ---------- program counters ----------

  datatype CallPc =
    | Verified             // holds a verified identity, not yet past the unbound gate
    | Cleared              // about to take the router lock in `_slot`
    | Retiring(victim: nat)  // admitted; must close slot `victim` outside all locks first
    | Admitted             // waiting for its slot's execution lock
    | Executing            // inside `_execute_in_slot`
    | Ran(ok: bool)
    | Requested(g: int)    // raised the request generation to `g`; the later gates are ahead
    | Launching(g: int)    // passed the launch check and dropped the router lock
    | Leaving              // about to release its slot
    | Gone

  datatype Call = Call(session: string, bridgeId: string, isTaskStart: bool, pc: CallPc, slot: nat, runs: nat)

  datatype WorkerPc = Cycle | Rearming | Ended
  datatype Worker = Worker(slot: nat, gen: int, pc: WorkerPc)

  datatype CloserPc = Draining | Closing(next: nat) | Returned
  datatype Closer = Closer(todo: seq<nat>, pc: CloserPc)

  /** Where a slot stands: in the map; unmapped by call `t`, which has yet to close it; taken
      by `close()` at position `k` of its list; or closed. */
  datatype Phase = Live | Stale(t: nat) | Doomed(k: nat) | Closed(atShutdown: bool)

  /** Beside each slot: who holds its execution lock, and history -- the generation its last
      started worker captured, the requests whose caller gave up at a gate or whose worker
      could not start, and how often the slot and its adapter were closed. */
  datatype Meta = Meta(
    holder: Option<nat>, lastGen: int, dropped: set<int>, closes: nat, adapterCloses: nat, phase: Phase)

  /** `lock` is the worker that keeps the router lock across its two completion sections. */
  datatype Sys = Sys(
    r: Router, meta: seq<Meta>, calls: map<nat, Call>, workers: seq<Worker>, closers: seq<Closer>,
    lock: Option<nat>)

  function Init(): Sys { Sys(Router(false, [], []), [], map[], [], [], None) }

  predicate InFlight(pc: CallPc) { !pc.Verified? && !pc.Cleared? && !pc.Gone? }

  // ---------- steps ----------

  datatype Step =
    | Arrive(t: nat, session: string, bridgeId: string, isTaskStart: bool)
    | Gate(t: nat, exact: bool, permitted: bool, durable: bool)
    | Enter(t: nat)
    | CloseStale(t: nat, fails: bool)
    | Begin(t: nat)
    | End(t: nat, ok: bool)
    | Ask(t: nat, eligible: bool)
    | Drop(t: nat)
    | CheckLaunch(t: nat)
    | Launch(t: nat, starts: bool)
    | Leave(t: nat)
    | FinishCycle(w: nat, stillActive: bool)
    | Rearm(w: nat, starts: bool)
    | Shutdown
    | Drained(c: nat)
    | CloseNext(c: nat)
    | Return(c: nat)

  predicate At(s: Sys, t: nat, pc: CallPc) { t in s.calls && s.calls[t].pc == pc }

  predicate SlotOk(s: Sys, t: nat) {
    t in s.calls && s.calls[t].slot < |s.r.slots| && s.calls[t].slot < |s.meta|
  }

  predicate Enabled(s: Sys, e: Step) {
    match e
    case Arrive(t, _, _, _) => t !in s.calls
    case Gate(t, _, _, _) => s.lock.None? && At(s, t, Verified)
    case Enter(t) => s.lock.None? && At(s, t, Cleared) && InRange(s.r)
    case CloseStale(t, _) => t in s.calls && s.calls[t].pc.Retiring? && s.calls[t].pc.victim < |s.meta|
                             && s.calls[t].pc.victim < |s.r.slots|
    case Begin(t) => At(s, t, Admitted) && SlotOk(s, t) && s.meta[s.calls[t].slot].holder.None?
    case End(t, _) => At(s, t, Executing) && SlotOk(s, t)
    case Ask(t, _) => t in s.calls && s.calls[t].pc.Ran? && SlotOk(s, t)
    case Drop(t) => t in s.calls && s.calls[t].pc.Requested? && SlotOk(s, t)
    case CheckLaunch(t) => s.lock.None? && t in s.calls && s.calls[t].pc.Requested? && SlotOk(s, t)
    case Launch(t, _) => t in s.calls && s.calls[t].pc.Launching? && SlotOk(s, t)
    case Leave(t) => s.lock.None? && At(s, t, Leaving) && SlotOk(s, t)
    case FinishCycle(w, _) => s.lock.None? && WorkerAt(s, w, Cycle)
    case Rearm(w, _) => s.lock == Some(w) && WorkerAt(s, w, Rearming)
    case Shutdown => s.lock.None?
    case Drained(c) => s.lock.None? && c < |s.closers| && s.closers[c].pc == Draining
                       && forall k :: 0 <= k < |s.closers[c].todo| ==>
                            s.closers[c].todo[k] < |s.r.slots| && s.r.slots[s.closers[c].todo[k]].inFlight == 0
    case CloseNext(c) =>
      c < |s.closers| && s.closers[c].pc.Closing? && s.closers[c].pc.next < |s.closers[c].todo|
      && var i := s.closers[c].todo[s.closers[c].pc.next];
         i < |s.meta| && i < |s.r.slots| && s.meta[i].holder.None?
    case Return(c) => c < |s.closers| && s.closers[c].pc.Closing? && s.closers[c].pc.next >= |s.closers[c].todo|
  }

  predicate WorkerAt(s: Sys, w: nat, pc: WorkerPc) {
    w < |s.workers| && s.workers[w].pc == pc
    && s.workers[w].slot < |s.r.slots| && s.workers[w].slot < |s.meta|
  }

  function Goto(s: Sys, t: nat, pc: CallPc): Sys
    requires t in s.calls
  {
    s.(calls := s.calls[t := s.calls[t].(pc := pc)])
  }

  function SetSlot(s: Sys, i: nat, slot: Slot): Sys
    requires i < |s.r.slots|
  {
    s.(r := s.r.(slots := s.r.slots[i := slot]))
  }

  function SetMeta(s: Sys, i: nat, m: Meta): Sys
    requires i < |s.meta|
  {
    s.(meta := s.meta[i := m])
  }

  function NewMeta(): Meta { Meta(None, 0, {}, 0, 0, Live) }

  /** A close of slot `i`: its adapter, if it has one, is closed with it. */
  function Close(s: Sys, i: nat, phase: Phase): Sys
    requires i < |s.meta| && i < |s.r.slots|
  {
    var m := s.meta[i];
    SetMeta(s, i, m.(closes := m.closes + 1, phase := phase,
                     adapterCloses := m.adapterCloses + if s.r.slots[i].hasAdapter then 1 else 0))
  }

  function DoEnter(s: Sys, t: nat): Sys
    requires At(s, t, Cleared) && InRange(s.r)
  {
    var c := s.calls[t];
    var (r, out) := Admit(s.r, c.session, c.bridgeId);
    match out
    case Refused(_) => Goto(s, t, Gone)
    case Joined(id) => s.(r := r, calls := s.calls[t := c.(pc := Admitted, slot := id)])
    case Created(id, None) =>
      s.(r := r, meta := s.meta + [NewMeta()], calls := s.calls[t := c.(pc := Admitted, slot := id)])
    case Created(id, Some(i)) =>
      var meta := if i < |s.meta| then s.meta[i := s.meta[i].(phase := Stale(t))] else s.meta;
      s.(r := r, meta := meta + [NewMeta()], calls := s.calls[t := c.(pc := Retiring(i), slot := id)])
  }

  function DoBegin(s: Sys, t: nat): Sys
    requires At(s, t, Admitted) && SlotOk(s, t)
  {
    var c := s.calls[t];
    var slot := s.r.slots[c.slot];
    if c.session != slot.session || c.bridgeId != slot.bridgeId then Goto(s, t, Leaving)
    else
      var s1 := SetMeta(SetSlot(s, c.slot, slot.(hasAdapter := true)), c.slot, s.meta[c.slot].(holder := Some(t)));
      s1.(calls := s.calls[t := c.(pc := Executing, runs := c.runs + 1)])
  }

  function DoAsk(s: Sys, t: nat, eligible: bool): Sys
    requires t in s.calls && s.calls[t].pc.Ran? && SlotOk(s, t)
  {
    var c := s.calls[t];
    if !c.pc.ok || !eligible then Goto(s, t, Leaving)
    else
      var (slot, requested) := Request(s.r.slots[c.slot], c.isTaskStart);
      Goto(SetSlot(s, c.slot, slot), t, if requested then Requested(slot.generation) else Leaving)
  }

  /** The generations above `lo` up to `hi`. */
  function Range(lo: int, hi: int): (r: set<int>)
    ensures forall g :: g in r <==> lo < g <= hi
    decreases hi - lo
  {
    if hi <= lo then {} else Range(lo, hi - 1) + {hi}
  }

  function EndWorker(s: Sys, w: nat, pc: WorkerPc): Sys
    requires w < |s.workers|
  {
    s.(workers := s.workers[w := s.workers[w].(pc := pc)])
  }

  function DoLaunch(s: Sys, t: nat, starts: bool): Sys
    requires t in s.calls && s.calls[t].pc.Launching? && SlotOk(s, t)
  {
    var i := s.calls[t].slot;
    var slot := s.r.slots[i];
    var m := s.meta[i];
    if slot.active then Goto(s, t, Leaving)
    else
      var (slot', started) := Start(slot, None, |s.workers|, starts);
      if started.Some? then
        Goto(SetMeta(SetSlot(s, i, slot'), i, m.(lastGen := started.value))
             .(workers := s.workers + [Worker(i, started.value, Cycle)]), t, Leaving)
      else Goto(SetMeta(SetSlot(s, i, slot'), i, m.(dropped := m.dropped + {s.calls[t].pc.g})), t, Leaving)
  }

  function DoFinish(s: Sys, w: nat, stillActive: bool): Sys
    requires WorkerAt(s, w, Cycle)
  {
    var worker := s.workers[w];
    var (slot, rearm) := Finish(s.r, worker.slot, w, worker.gen, stillActive);
    var s1 := SetSlot(s, worker.slot, slot);
    if rearm then EndWorker(s1, w, Rearming).(lock := Some(w)) else EndWorker(s1, w, Ended)
  }

  /** The re-arming worker launches its successor, still under the router lock. */
  function DoRearm(s: Sys, w: nat, starts: bool): Sys
    requires WorkerAt(s, w, Rearming)
  {
    var i := s.workers[w].slot;
    var s1 := EndWorker(s, w, Ended).(lock := None);
    var m := s.meta[i];
    if LaunchRefused(s.r, i) then SetSlot(s1, i, Clear(s.r.slots[i], w))
    else
      var (slot, started) := Start(s.r.slots[i], Some(w), |s.workers|, starts);
      if started.Some? then
        SetMeta(SetSlot(s1, i, slot), i, m.(lastGen := started.value))
          .(workers := s1.workers + [Worker(i, started.value, Cycle)])
      else SetMeta(SetSlot(s1, i, slot), i, m.(dropped := m.dropped + Range(m.lastGen, slot.generation)))
  }

  function DoShutdown(s: Sys): Sys {
    var (r, todo) := Shut(s.r);
    s.(r := r, closers := s.closers + [Closer(todo, Draining)],
       meta := seq(|s.meta|, i requires 0 <= i < |s.meta| =>
         if s.meta[i].phase.Live? then s.meta[i].(phase := Doomed(Position(todo, i))) else s.meta[i]))
  }

  /** Where `i` stands in the list, or 0. */
  function Position(todo: seq<nat>, i: nat): nat {
    if todo == [] then 0 else if todo[|todo| - 1] == i then |todo| - 1 else Position(todo[..|todo| - 1], i)
  }

  function SetCloser(s: Sys, c: nat, pc: CloserPc): Sys
    requires c < |s.closers|
  {
    s.(closers := s.closers[c := s.closers[c].(pc := pc)])
  }

  function Apply(s: Sys, e: Step): Sys
    requires Enabled(s, e)
  {
    match e
    case Arrive(t, session, bridgeId, isTaskStart) =>
      s.(calls := s.calls[t := Call(session, bridgeId, isTaskStart, Verified, 0, 0)])
    case Gate(t, exact, permitted, durable) =>
      var known := Find(s.r.table, s.calls[t].session).Some?;
      Goto(s, t, if exact && (known || permitted || durable) then Cleared else Gone)
    case Enter(t) => DoEnter(s, t)
    case CloseStale(t, fails) =>
      Goto(Close(s, s.calls[t].pc.victim, Closed(false)), t, if fails then Leaving else Admitted)
    case Begin(t) => DoBegin(s, t)
    case End(t, ok) =>
      var i := s.calls[t].slot;
      Goto(SetMeta(s, i, s.meta[i].(holder := None)), t, Ran(ok))
    case Ask(t, eligible) => DoAsk(s, t, eligible)
    case Drop(t) =>
      var i := s.calls[t].slot;
      Goto(SetMeta(s, i, s.meta[i].(dropped := s.meta[i].dropped + {s.calls[t].pc.g})), t, Leaving)
    case CheckLaunch(t) =>
      Goto(s, t, if LaunchRefused(s.r, s.calls[t].slot) then Leaving else Launching(s.calls[t].pc.g))
    case Launch(t, starts) => DoLaunch(s, t, starts)
    case Leave(t) => Goto(s, t, Gone).(r := Release(s.r, s.calls[t].slot))
    case FinishCycle(w, stillActive) => DoFinish(s, w, stillActive)
    case Rearm(w, starts) => DoRearm(s, w, starts)
    case Shutdown => DoShutdown(s)
    case Drained(c) => SetCloser(s, c, Closing(0))
    case CloseNext(c) =>
      var next := s.closers[c].pc.next;
      SetCloser(Close(s, s.closers[c].todo[next], Closed(true)), c, Closing(next + 1))
    case Return(c) => SetCloser(s, c, Returned)
  }
}
