/** The router and the adapters in its slots together: which composed hosts are open, and that
    shutdown leaves none. */
module SlotHosts {
  import A = AdapterRuns
  import AdapterSpec
  import S = RouterSpec
  import R = RouterMachine
  import RI = RouterInvariant
  import RS = RouterSteps
  import RL = RouterLimits
  import RT = RouterTheorems

  /** A slot's adapter, with the context it was made for. */
  datatype Housed = Housed(ctx: AdapterSpec.Context, s: A.Sys)

  datatype Sys = Sys(r: R.Sys, adapters: map<nat, Housed>)

  /** `Route` is a router step; if it is the first call to begin in its slot it makes the adapter,
      which resumes as `a` says in a process state `w` of its own.  `Operate` is what an executing
      call does with its slot's adapter. */
  datatype Step =
    | Route(e: R.Step, ctx: AdapterSpec.Context, w: AdapterSpec.World, a: AdapterSpec.Attempt)
    | Operate(t: nat, q: AdapterSpec.Request, a: AdapterSpec.Attempt)

  /** The context of a slot: its session is the origin, and the dispatcher stays unbound. */
  predicate IsSlotContext(r: R.Sys, e: R.Step, ctx: AdapterSpec.Context) {
    !ctx.bindGlobal && (e.Begin? && e.t in r.calls ==> ctx.origin == r.calls[e.t].session)
  }

  predicate Enabled(s: Sys, e: Step) {
    match e
    case Route(e, ctx, w, _) => R.Enabled(s.r, e) && IsSlotContext(s.r, e, ctx) && A.Fresh(w)
    case Operate(t, _, _) => R.At(s.r, t, R.Executing) && s.r.calls[t].slot in s.adapters
  }

  function Do(adapters: map<nat, Housed>, i: nat, op: A.Op): map<nat, Housed> {
    if i in adapters then adapters[i := adapters[i].(s := A.Apply(adapters[i].ctx, adapters[i].s, op))] else adapters
  }

  function AfterRoute(s: Sys, e: R.Step, ctx: AdapterSpec.Context, w: AdapterSpec.World, a: AdapterSpec.Attempt)
    : map<nat, Housed>
    requires R.Enabled(s.r, e)
  {
    match e
    case Begin(t) =>
      var i := s.r.calls[t].slot;
      if i in s.adapters || !R.Apply(s.r, e).r.slots[i].hasAdapter then s.adapters
      else s.adapters[i := Housed(ctx, A.Start(ctx, w, a))]
    case CloseStale(t, _) => Do(s.adapters, s.r.calls[t].pc.victim, A.DoClose)
    case CloseNext(c) => Do(s.adapters, s.r.closers[c].todo[s.r.closers[c].pc.next], A.DoClose)
    case _ => s.adapters
  }

  function Apply(s: Sys, e: Step): Sys
    requires Enabled(s, e)
  {
    match e
    case Route(e, ctx, w, a) => Sys(R.Apply(s.r, e), AfterRoute(s, e, ctx, w, a))
    case Operate(t, q, a) => s.(adapters := Do(s.adapters, s.r.calls[t].slot, A.DoInvoke(q, a)))
  }

  // ---------- the invariant ----------

  ghost predicate HousedOk(r: R.Sys, i: nat, h: Housed) {
    && i < |r.r.slots| && i < |r.meta| && r.r.slots[i].hasAdapter
    && !h.ctx.bindGlobal && h.ctx.origin == r.r.slots[i].session && A.Inv(h.ctx, h.s)
    && (r.meta[i].phase.Closed? ==> A.IsUnbound(h.s.f))
  }

  ghost predicate HousesInv(s: Sys) {
    && (forall i :: i in s.adapters ==> HousedOk(s.r, i, s.adapters[i]))
    && (forall i :: 0 <= i < |s.r.r.slots| && s.r.r.slots[i].hasAdapter ==> i in s.adapters)
    && (forall t :: t in s.r.calls && s.r.calls[t].pc.Executing? ==> s.r.calls[t].slot in s.adapters)
  }

  ghost predicate Inv(s: Sys) { RI.Inv(s.r) && HousesInv(s) }

  /** Slot `i` keeps what its adapter depends on. */
  ghost predicate SameSlot(r: R.Sys, r': R.Sys, i: nat)
    requires i < |r.r.slots| && i < |r.meta|
  {
    && i < |r'.r.slots| && i < |r'.meta|
    && r'.r.slots[i].hasAdapter == r.r.slots[i].hasAdapter && r'.r.slots[i].session == r.r.slots[i].session
    && (r'.meta[i].phase.Closed? <==> r.meta[i].phase.Closed?)
  }

  /** A step that neither begins a call nor closes a slot. */
  predicate Plain(e: R.Step) { !e.Begin? && !e.CloseStale? && !e.CloseNext? }

  ghost predicate SlotsKept(r: R.Sys, r': R.Sys, i: nat)
    requires |r.r.slots| == |r.meta|
  {
    && (i < |r.r.slots| ==> SameSlot(r, r', i))
    && (|r.r.slots| <= i < |r'.r.slots| ==> !r'.r.slots[i].hasAdapter)
  }

  lemma EnterSlots(r: R.Sys, t: nat, i: nat)
    requires RI.Inv(r) && R.Enabled(r, R.Enter(t))
    ensures var r' := R.Apply(r, R.Enter(t));
            && |r'.meta| == |r'.r.slots| >= |r.r.slots|
            && (i < |r.r.slots| ==> r'.r.slots[i].hasAdapter == r.r.slots[i].hasAdapter
                                    && r'.r.slots[i].session == r.r.slots[i].session)
            && (|r.r.slots| <= i < |r'.r.slots| ==> !r'.r.slots[i].hasAdapter)
  {
    S.AdmitDecides(r.r, r.calls[t].session, r.calls[t].bridgeId);
  }

  /** Admission unmaps only slots that have not been closed. */
  lemma EnterPhase(r: R.Sys, t: nat, i: nat)
    requires RI.Inv(r) && R.Enabled(r, R.Enter(t)) && i < |r.meta|
    ensures var r' := R.Apply(r, R.Enter(t));
            i < |r'.meta| && (r'.meta[i].phase.Closed? <==> r.meta[i].phase.Closed?)
  {
    S.AdmitDecides(r.r, r.calls[t].session, r.calls[t].bridgeId);
    assert RI.PhaseOk(r, i);
  }

  lemma EnterKeeps(r: R.Sys, t: nat, i: nat)
    requires RI.Inv(r) && R.Enabled(r, R.Enter(t))
    ensures SlotsKept(r, R.Apply(r, R.Enter(t)), i)
  {
    EnterSlots(r, t, i);
    if i < |r.r.slots| { EnterPhase(r, t, i); }
  }

  lemma LaunchKeeps(r: R.Sys, t: nat, starts: bool, i: nat)
    requires |r.r.slots| == |r.meta| && R.Enabled(r, R.Launch(t, starts))
    ensures SlotsKept(r, R.Apply(r, R.Launch(t, starts)), i)
  {
  }

  lemma RearmKeeps(r: R.Sys, w: nat, starts: bool, i: nat)
    requires |r.r.slots| == |r.meta| && R.Enabled(r, R.Rearm(w, starts))
    ensures SlotsKept(r, R.Apply(r, R.Rearm(w, starts)), i)
  {
  }

  lemma FinishKeeps(r: R.Sys, w: nat, stillActive: bool, i: nat)
    requires |r.r.slots| == |r.meta| && R.Enabled(r, R.FinishCycle(w, stillActive))
    ensures SlotsKept(r, R.Apply(r, R.FinishCycle(w, stillActive)), i)
  {
  }

  lemma CallKeeps(r: R.Sys, e: R.Step, i: nat)
    requires |r.r.slots| == |r.meta| && R.Enabled(r, e)
    requires e.Arrive? || e.Gate? || e.End? || e.Ask? || e.Drop? || e.CheckLaunch? || e.Leave?
    ensures SlotsKept(r, R.Apply(r, e), i)
  {
  }

  lemma PlainKeeps(r: R.Sys, e: R.Step, i: nat)
    requires RI.Inv(r) && R.Enabled(r, e) && Plain(e)
    ensures SlotsKept(r, R.Apply(r, e), i)
  {
    match e
    case Enter(t) => EnterKeeps(r, t, i);
    case Launch(t, starts) => LaunchKeeps(r, t, starts, i);
    case Rearm(w, starts) => RearmKeeps(r, w, starts, i);
    case FinishCycle(w, stillActive) => FinishKeeps(r, w, stillActive, i);
    case Shutdown =>
    case Drained(_) =>
    case Return(_) =>
    case _ => CallKeeps(r, e, i);
  }

  lemma PlainExecutes(r: R.Sys, e: R.Step, t: nat)
    requires R.Enabled(r, e) && !e.Begin? && t in R.Apply(r, e).calls && R.Apply(r, e).calls[t].pc.Executing?
    ensures t in r.calls && r.calls[t].pc.Executing? && R.Apply(r, e).calls[t].slot == r.calls[t].slot
  {
  }

  lemma PlainInv(s: Sys, e: R.Step)
    requires Inv(s) && R.Enabled(s.r, e) && Plain(e)
    ensures HousesInv(s.(r := R.Apply(s.r, e)))
  {
    var s' := s.(r := R.Apply(s.r, e));
    forall i | i in s'.adapters ensures HousedOk(s'.r, i, s'.adapters[i]) {
      assert HousedOk(s.r, i, s.adapters[i]);
      PlainKeeps(s.r, e, i);
    }
    forall i | 0 <= i < |s'.r.r.slots| && s'.r.r.slots[i].hasAdapter ensures i in s'.adapters { PlainKeeps(s.r, e, i); }
    forall t | t in s'.r.calls && s'.r.calls[t].pc.Executing? ensures s'.r.calls[t].slot in s'.adapters {
      PlainExecutes(s.r, e, t);
    }
  }

  /** Step `e` closes slot `i`. */
  predicate Closes(r: R.Sys, e: R.Step, i: nat) {
    && R.Enabled(r, e)
    && ((e.CloseStale? && i == r.calls[e.t].pc.victim)
        || (e.CloseNext? && i == r.closers[e.c].todo[r.closers[e.c].pc.next]))
  }

  lemma CloseOne(r: R.Sys, e: R.Step, i: nat, j: nat)
    requires Closes(r, e, i) && |r.r.slots| == |r.meta| && j < |r.r.slots|
    ensures var r' := R.Apply(r, e);
            && i < |r.meta| && r'.r == r.r && |r'.meta| == |r.meta| && r'.meta[i].phase.Closed?
            && (j != i ==> SameSlot(r, r', j))
  {
  }

  lemma ClosedHouse(s: Sys, e: R.Step, i: nat, j: nat)
    requires Inv(s) && Closes(s.r, e, i) && j in s.adapters
    ensures HousedOk(R.Apply(s.r, e), j, Do(s.adapters, i, A.DoClose)[j])
  {
    assert HousedOk(s.r, j, s.adapters[j]);
    CloseOne(s.r, e, i, j);
    if j == i { ClosedAdapter(s.adapters[i]); }
  }

  lemma ClosedAdapter(h: Housed)
    requires A.Inv(h.ctx, h.s)
    ensures var s' := A.Apply(h.ctx, h.s, A.DoClose); A.Inv(h.ctx, s') && A.IsUnbound(s'.f)
  {
    A.StepInv(h.ctx, h.s, A.DoClose);
  }

  /** Closing a slot closes its adapter. */
  lemma CloseInv(s: Sys, e: R.Step, i: nat)
    requires Inv(s) && Closes(s.r, e, i)
    ensures HousesInv(Sys(R.Apply(s.r, e), Do(s.adapters, i, A.DoClose)))
  {
    var s' := Sys(R.Apply(s.r, e), Do(s.adapters, i, A.DoClose));
    forall j | j in s'.adapters ensures HousedOk(s'.r, j, s'.adapters[j]) { ClosedHouse(s, e, i, j); }
    forall j | 0 <= j < |s'.r.r.slots| && s'.r.r.slots[j].hasAdapter ensures j in s'.adapters {
      CloseOne(s.r, e, i, j);
    }
    forall t | t in s'.r.calls && s'.r.calls[t].pc.Executing? ensures s'.r.calls[t].slot in s'.adapters {
      PlainExecutes(s.r, e, t);
    }
  }

  lemma BeginSlot(r: R.Sys, t: nat, j: nat)
    requires RI.Inv(r) && R.Enabled(r, R.Begin(t)) && j < |r.r.slots|
    ensures var i, r' := r.calls[t].slot, R.Apply(r, R.Begin(t));
            && |r'.r.slots| == |r.r.slots| == |r'.meta| == |r.meta| && i < |r.r.slots|
            && r'.r.slots[i].hasAdapter && r.r.slots[i].session == r.calls[t].session && !r'.meta[i].phase.Closed?
            && r'.r.slots[j].session == r.r.slots[j].session
            && (r'.meta[j].phase.Closed? <==> r.meta[j].phase.Closed?)
            && (j != i ==> r'.r.slots[j].hasAdapter == r.r.slots[j].hasAdapter)
            && r'.calls == r.calls[t := r'.calls[t]] && r'.calls[t].slot == i
  {
    RI.HeldSlot(r, t);
    assert RI.CallOk(r, t, r.calls[t]);
  }

  lemma BeginShape(r: R.Sys, t: nat)
    requires RI.Inv(r) && R.Enabled(r, R.Begin(t))
    ensures var i, r' := r.calls[t].slot, R.Apply(r, R.Begin(t));
            && |r'.r.slots| == |r.r.slots| && i < |r.r.slots| && r'.r.slots[i].hasAdapter
            && r'.calls == r.calls[t := r'.calls[t]] && r'.calls[t].slot == i
  {
    RI.HeldSlot(r, t);
    BeginSlot(r, t, r.calls[t].slot);
  }

  lemma BegunHouse(s: Sys, t: nat, j: nat)
    requires Inv(s) && R.Enabled(s.r, R.Begin(t)) && j in s.adapters
    ensures HousedOk(R.Apply(s.r, R.Begin(t)), j, s.adapters[j])
  {
    assert HousedOk(s.r, j, s.adapters[j]);
    BeginSlot(s.r, t, j);
  }

  lemma NewHouse(s: Sys, t: nat, ctx: AdapterSpec.Context, w: AdapterSpec.World, a: AdapterSpec.Attempt)
    requires Inv(s) && Enabled(s, Route(R.Begin(t), ctx, w, a))
    ensures HousedOk(R.Apply(s.r, R.Begin(t)), s.r.calls[t].slot, Housed(ctx, A.Start(ctx, w, a)))
  {
    RI.HeldSlot(s.r, t);
    BeginSlot(s.r, t, s.r.calls[t].slot);
    A.ResumeOutcome(ctx, w, a);
  }

  /** What beginning a call makes of the adapters. */
  function Begun(s: Sys, t: nat, h: Housed): map<nat, Housed>
    requires t in s.r.calls
  {
    if s.r.calls[t].slot in s.adapters then s.adapters else s.adapters[s.r.calls[t].slot := h]
  }

  lemma BegunInv(s: Sys, t: nat, h: Housed)
    requires Inv(s) && R.Enabled(s.r, R.Begin(t)) && HousedOk(R.Apply(s.r, R.Begin(t)), s.r.calls[t].slot, h)
    ensures HousesInv(Sys(R.Apply(s.r, R.Begin(t)), Begun(s, t, h)))
  {
    var s' := Sys(R.Apply(s.r, R.Begin(t)), Begun(s, t, h));
    forall j | j in s'.adapters ensures HousedOk(s'.r, j, s'.adapters[j]) {
      if j in s.adapters { BegunHouse(s, t, j); }
    }
    BegunHoused(s, t, h);
  }

  lemma BegunHoused(s: Sys, t: nat, h: Housed)
    requires Inv(s) && R.Enabled(s.r, R.Begin(t))
    ensures var r', adapters := R.Apply(s.r, R.Begin(t)), Begun(s, t, h);
            && (forall j :: 0 <= j < |r'.r.slots| && r'.r.slots[j].hasAdapter ==> j in adapters)
            && (forall u :: u in r'.calls && r'.calls[u].pc.Executing? ==> r'.calls[u].slot in adapters)
  {
    var r' := R.Apply(s.r, R.Begin(t));
    BeginShape(s.r, t);
    forall j | 0 <= j < |r'.r.slots| && r'.r.slots[j].hasAdapter ensures j in Begun(s, t, h) { BeginSlot(s.r, t, j); }
  }

  lemma BeginInv(s: Sys, t: nat, ctx: AdapterSpec.Context, w: AdapterSpec.World, a: AdapterSpec.Attempt)
    requires Inv(s) && Enabled(s, Route(R.Begin(t), ctx, w, a))
    ensures HousesInv(Apply(s, Route(R.Begin(t), ctx, w, a)))
  {
    BeginShape(s.r, t);
    NewHouse(s, t, ctx, w, a);
    BegunInv(s, t, Housed(ctx, A.Start(ctx, w, a)));
  }

  /** An executing call's slot has not been closed, so what it does with the adapter is safe. */
  lemma OperateInv(s: Sys, t: nat, q: AdapterSpec.Request, a: AdapterSpec.Attempt)
    requires Inv(s) && Enabled(s, Operate(t, q, a))
    ensures HousesInv(Apply(s, Operate(t, q, a)))
  {
    var s' := Apply(s, Operate(t, q, a));
    var i := s.r.calls[t].slot;
    RI.HeldSlot(s.r, t);
    forall j | j in s'.adapters ensures HousedOk(s'.r, j, s'.adapters[j]) {
      assert HousedOk(s.r, j, s.adapters[j]);
      if j == i { A.StepInv(s.adapters[i].ctx, s.adapters[i].s, A.DoInvoke(q, a)); }
    }
  }

  lemma StepInv(s: Sys, e: Step)
    requires Inv(s) && Enabled(s, e)
    ensures Inv(Apply(s, e))
  {
    match e
    case Operate(t, q, a) => OperateInv(s, t, q, a);
    case Route(move, ctx, w, a) =>
      RS.StepInv(s.r, move);
      match move {
        case Begin(t) => BeginInv(s, t, ctx, w, a);
        case CloseStale(t, _) => CloseInv(s, move, s.r.calls[t].pc.victim);
        case CloseNext(c) => CloseInv(s, move, s.r.closers[c].todo[s.r.closers[c].pc.next]);
        case _ => PlainInv(s, move);
      }
  }

  ghost predicate IsRun(states: seq<Sys>, steps: seq<Step>) {
    && |states| == |steps| + 1 && states[0] == Sys(R.Init(), map[])
    && forall k :: 0 <= k < |steps| ==> Enabled(states[k], steps[k]) && states[k + 1] == Apply(states[k], steps[k])
  }

  lemma {:induction false} RunInv(states: seq<Sys>, steps: seq<Step>, k: nat)
    requires IsRun(states, steps) && k <= |steps|
    ensures Inv(states[k])
  {
    if k == 0 {
      RI.InitInv();
    } else {
      RunInv(states, steps, k - 1);
      StepInv(states[k - 1], steps[k - 1]);
    }
  }

  // ---------- hosts ----------

  /** Host `h` of slot `i`'s adapter is open. */
  predicate IsOpen(s: Sys, i: nat, h: nat) {
    i in s.adapters && h < |s.adapters[i].s.w.closes| && s.adapters[i].s.w.closes[h] == 0
  }

  /** In every run a slot has at most one open host, a slot that has been closed has none, and no
      host is closed twice. */
  lemma OneOpenHostPerSlot(states: seq<Sys>, steps: seq<Step>, k: nat, i: nat, g: nat, h: nat)
    requires IsRun(states, steps) && k <= |steps|
    ensures var s := states[k];
            && (IsOpen(s, i, g) && IsOpen(s, i, h) ==> g == h)
            && (IsOpen(s, i, h) ==> i < |s.r.meta| && s.r.meta[i].closes == 0)
            && (i in s.adapters && h < |s.adapters[i].s.w.closes| ==> s.adapters[i].s.w.closes[h] <= 1)
  {
    var s := states[k];
    RunInv(states, steps, k);
    if i in s.adapters {
      assert HousedOk(s.r, i, s.adapters[i]) && RI.PhaseOk(s.r, i);
    }
  }

  lemma ReturnedStays(s: Sys, e: Step)
    requires Enabled(s, e) && s.r.closers != [] && s.r.closers[0].pc == R.Returned
    ensures Apply(s, e).r.closers != [] && Apply(s, e).r.closers[0].pc == R.Returned
  {
    if e.Route? { RT.ReturnedStays(s.r, e.e, 0); }
  }

  lemma {:induction false} ReturnedForever(states: seq<Sys>, steps: seq<Step>, k: nat, m: nat)
    requires IsRun(states, steps) && k <= m <= |steps|
    requires states[k].r.closers != [] && states[k].r.closers[0].pc == R.Returned
    ensures states[m].r.closers != [] && states[m].r.closers[0].pc == R.Returned
  {
    if k < m {
      ReturnedForever(states, steps, k, m - 1);
      ReturnedStays(states[m - 1], steps[m - 1]);
    }
  }

  /** When the `close()` that found the router open has returned, every host ever composed by the
      adapter of any slot ever created has been closed exactly once -- evicted and retired slots
      included, whatever was bound, promoted or resumed in them and however it failed -- and no
      host is ever composed again. */
  lemma ShutdownClosesEveryHost(states: seq<Sys>, steps: seq<Step>, k: nat, m: nat, i: nat, h: nat)
    requires IsRun(states, steps) && k <= m <= |steps|
    requires states[k].r.closers != [] && states[k].r.closers[0].pc == R.Returned
    ensures var s := states[m];
            && (i in s.adapters && h < |s.adapters[i].s.w.closes| ==> s.adapters[i].s.w.closes[h] == 1)
            && (i in s.adapters ==> A.IsUnbound(s.adapters[i].s.f))
            && (m < |steps| ==> states[m + 1].adapters == s.adapters)
  {
    var s := states[m];
    RunInv(states, steps, m);
    ReturnedForever(states, steps, k, m);
    RT.FirstCloserDone(s.r);
    if i in s.adapters {
      assert HousedOk(s.r, i, s.adapters[i]) && RI.PhaseOk(s.r, i);
    }
    if m < |steps| { NothingHappens(s, steps[m]); }
  }

  lemma NothingHappens(s: Sys, e: Step)
    requires Inv(s) && RT.Complete(s.r) && Enabled(s, e) && s.r.closers != [] && s.r.closers[0].pc == R.Returned
    ensures Apply(s, e).adapters == s.adapters
  {
    if e.Route? && e.e.CloseNext? { RL.NothingLeft(s.r, e.e.c); }
  }
}
