/** Preservation of the router invariant by admission, by workers at the end of a cycle, and by
    whoever closes slots; then by every step of every run. */
module RouterSteps {
  import opened Wrappers
  import opened RouterSpec
  import opened RouterMachine
  import opened RouterInvariant

  // ---------- the end of a cycle ----------

  /** Worker `w` gives its slot up. */
  ghost function Disarm(s: Sys, w: nat): Sys
    requires w < |s.workers| && s.workers[w].slot < |s.r.slots|
  {
    var i := s.workers[w].slot;
    EndWorker(SetSlot(s, i, Clear(s.r.slots[i], w)), w, Ended).(lock := if s.lock == Some(w) then None else s.lock)
  }

  lemma DisarmBase(s: Sys, w: nat)
    requires Base(s) && w < |s.workers| && s.workers[w].pc != Ended
    ensures s.workers[w].slot < |s.r.slots| && Base(Disarm(s, w))
    ensures !Disarm(s, w).r.slots[s.workers[w].slot].active
  {
    assert WorkerOk(s, w);
    var i := s.workers[w].slot;
    var s' := Disarm(s, w);
    assert OwnerOk(s, i);
    forall j | 0 <= j < |s'.r.slots| ensures OwnerOk(s', j) { assert OwnerOk(s, j); }
    forall v | 0 <= v < |s'.workers| ensures WorkerOk(s', v) { assert WorkerOk(s, v); }
    CompletionOnly(s, s');
  }

  /** Requests are covered in `s'` wherever slot `i` is not concerned. */
  lemma RequestsElsewhere(s: Sys, s': Sys, i: nat)
    requires |s.meta| == |s.r.slots| && RequestInv(s) && SameButCompletion(s, s') && i < |s.r.slots|
    requires forall j :: 0 <= j < |s.r.slots| && j != i ==> s'.r.slots[j] == s.r.slots[j] && s'.meta[j] == s.meta[j]
    requires !s.r.closed && s.meta[i].phase.Live? ==>
               forall g :: s'.meta[i].lastGen < g <= s'.r.slots[i].generation ==> Covered(s', i, g)
    ensures RequestInv(s')
  {
    if !s.r.closed {
      forall j, g | 0 <= j < |s'.r.slots| && s'.meta[j].phase.Live?
                    && s'.meta[j].lastGen < g <= s'.r.slots[j].generation
        ensures Covered(s', j, g)
      {
        if j != i { assert Covered(s, j, g); }
      }
    }
  }

  /** A worker that still owns its slot's completion either re-arms, or leaves nothing behind:
      in an open router with the slot mapped, it stops only if no newer request was made. */
  lemma FinishInv(s: Sys, w: nat, stillActive: bool)
    requires Inv(s) && Enabled(s, FinishCycle(w, stillActive))
    ensures Inv(Apply(s, FinishCycle(w, stillActive)))
  {
    FinishIs(s, w, stillActive);
    if Finish(s.r, s.workers[w].slot, w, s.workers[w].gen, stillActive).1 {
      RearmingInv(s, w);
    } else {
      DisarmInv(s, w);
    }
  }

  /** A worker may give up when the router is closed, its slot unmapped or nothing newer requested. */
  lemma DisarmInv(s: Sys, w: nat)
    requires Inv(s) && WorkerAt(s, w, Cycle) && s.lock.None?
    requires LaunchRefused(s.r, s.workers[w].slot)
             || s.r.slots[s.workers[w].slot].generation == s.workers[w].gen
    ensures Inv(Disarm(s, w))
  {
    var i := s.workers[w].slot;
    assert WorkerOk(s, w) && OwnerOk(s, i) && PhaseOk(s, i);
    FindExact(s.r.table, s.r.slots[i].session, i);
    DisarmBase(s, w);
    RequestsElsewhere(s, Disarm(s, w), i);
  }

  /** The end of a cycle starts a hand-off or gives the slot up. */
  lemma FinishIs(s: Sys, w: nat, stillActive: bool)
    requires Enabled(s, FinishCycle(w, stillActive))
    ensures Apply(s, FinishCycle(w, stillActive))
         == if Finish(s.r, s.workers[w].slot, w, s.workers[w].gen, stillActive).1
            then EndWorker(s, w, Rearming).(lock := Some(w)) else Disarm(s, w)
  {
    var i := s.workers[w].slot;
    assert s.r.slots[i := s.r.slots[i]] == s.r.slots;
  }

  lemma RearmingInv(s: Sys, w: nat)
    requires Inv(s) && WorkerAt(s, w, Cycle) && s.lock.None? && !LaunchRefused(s.r, s.workers[w].slot)
    ensures Inv(EndWorker(s, w, Rearming).(lock := Some(w)))
  {
    var s' := EndWorker(s, w, Rearming).(lock := Some(w));
    forall j | 0 <= j < |s'.r.slots| ensures OwnerOk(s', j) { assert OwnerOk(s, j); }
    forall v | 0 <= v < |s'.workers| ensures WorkerOk(s', v) { assert WorkerOk(s, v); }
    CompletionOnly(s, s');
    if !s.r.closed {
      forall j, g | 0 <= j < |s'.r.slots| && s'.meta[j].phase.Live?
                    && s'.meta[j].lastGen < g <= s'.r.slots[j].generation
        ensures Covered(s', j, g)
      {
        assert Covered(s, j, g);
      }
    }
  }

  lemma RearmStarts(s: Sys, w: nat)
    requires Inv(s) && Enabled(s, Rearm(w, true)) && !LaunchRefused(s.r, s.workers[w].slot)
    ensures Base(Apply(s, Rearm(w, true)))
  {
    var i := s.workers[w].slot;
    assert WorkerOk(s, w) && OwnerOk(s, i) && PhaseOk(s, i);
    DisarmBase(s, w);
    var s1 := Disarm(s, w);
    FindExact(s.r.table, s.r.slots[i].session, i);
    ArmCompletion(s1, i);
    CompletionOnly(s1, Arm(s1, i));
    RearmIsArm(s, w);
  }

  /** A hand-off is the old worker giving up and a new one taking over, with nothing in between. */
  lemma RearmIsArm(s: Sys, w: nat)
    requires Enabled(s, Rearm(w, true)) && !LaunchRefused(s.r, s.workers[w].slot)
    requires s.r.slots[s.workers[w].slot].thread == Some(w)
    ensures Apply(s, Rearm(w, true)) == Arm(Disarm(s, w), s.workers[w].slot)
  {
    var i := s.workers[w].slot;
    var s', s2 := Apply(s, Rearm(w, true)), Arm(Disarm(s, w), i);
    assert s'.workers == s2.workers;
    assert s'.r.slots == s2.r.slots;
  }

  lemma RearmFails(s: Sys, w: nat)
    requires Inv(s) && Enabled(s, Rearm(w, false)) && !LaunchRefused(s.r, s.workers[w].slot)
    ensures Base(Apply(s, Rearm(w, false)))
  {
    var i := s.workers[w].slot;
    assert WorkerOk(s, w) && OwnerOk(s, i);
    DisarmBase(s, w);
    var s1 := Disarm(s, w);
    var s' := Apply(s, Rearm(w, false));
    assert s'.r.slots == s1.r.slots;
    forall j | 0 <= j < |s'.r.slots| ensures OwnerOk(s', j) { assert OwnerOk(s1, j); }
    forall v | 0 <= v < |s'.workers| ensures WorkerOk(s', v) { assert WorkerOk(s1, v); }
    CompletionOnly(s1, s');
  }

  /** The hand-off, whatever was requested between the worker's two completion sections.  The
      branch that would find the router closed or the slot unmapped is never taken. */
  lemma RearmInv(s: Sys, w: nat, starts: bool)
    requires Inv(s) && Enabled(s, Rearm(w, starts))
    ensures Inv(Apply(s, Rearm(w, starts)))
    ensures !LaunchRefused(s.r, s.workers[w].slot)
  {
    assert WorkerOk(s, w) && OwnerOk(s, s.workers[w].slot);
    if starts { RearmStarts(s, w); } else { RearmFails(s, w); }
    RequestsElsewhere(s, Apply(s, Rearm(w, starts)), s.workers[w].slot);
  }

  // ---------- closing ----------

  lemma CloseStaleInv(s: Sys, t: nat, fails: bool)
    requires Inv(s) && Enabled(s, CloseStale(t, fails))
    ensures Inv(Apply(s, CloseStale(t, fails)))
  {
    var s' := Apply(s, CloseStale(t, fails));
    assert CallOk(s, t, s.calls[t]) && PhaseOk(s, s.calls[t].pc.victim);
    GotoCount(s, t, s'.calls[t].pc);
    CloseStaleRequests(s, t, fails);
    CloseStaleCalls(s, t, fails);
    CloseStalePhase(s, t, fails);
    CompletionKept(s, s');
  }

  lemma CloseStaleCalls(s: Sys, t: nat, fails: bool)
    requires |s.meta| == |s.r.slots| && CallsInv(s) && Enabled(s, CloseStale(t, fails))
    ensures CallsInv(Apply(s, CloseStale(t, fails)))
  {
    var s' := Apply(s, CloseStale(t, fails));
    assert CallOk(s, t, s.calls[t]);
    forall u | u in s'.calls ensures CallOk(s', u, s'.calls[u]) { assert CallOk(s, u, s.calls[u]); }
  }

  lemma CloseStalePhase(s: Sys, t: nat, fails: bool)
    requires |s.meta| == |s.r.slots| && CallsInv(s) && PhaseInv(s) && Enabled(s, CloseStale(t, fails))
    ensures PhaseInv(Apply(s, CloseStale(t, fails)))
  {
    var s' := Apply(s, CloseStale(t, fails));
    assert CallOk(s, t, s.calls[t]);
    forall j | 0 <= j < |s'.r.slots| ensures PhaseOk(s', j) { assert PhaseOk(s, j); }
  }

  /** Closing a slot concerns no completion worker. */
  lemma CompletionKept(s: Sys, s': Sys)
    requires |s.meta| == |s.r.slots| && CompletionInv(s)
    requires s'.r == s.r && s'.workers == s.workers && s'.lock == s.lock && |s'.meta| == |s.meta|
    requires forall i :: 0 <= i < |s.meta| ==> s'.meta[i].lastGen == s.meta[i].lastGen
    ensures CompletionInv(s')
  {
    forall i | 0 <= i < |s'.r.slots| ensures OwnerOk(s', i) { assert OwnerOk(s, i); }
    forall v | 0 <= v < |s'.workers| ensures WorkerOk(s', v) { assert WorkerOk(s, v); }
  }

  lemma CloseStaleRequests(s: Sys, t: nat, fails: bool)
    requires |s.meta| == |s.r.slots| && RequestInv(s) && Enabled(s, CloseStale(t, fails))
    ensures RequestInv(Apply(s, CloseStale(t, fails)))
  {
    var s' := Apply(s, CloseStale(t, fails));
    KeepsInHand(s, t, s'.calls[t].pc);
    if !s.r.closed {
      forall j, g | 0 <= j < |s'.r.slots| && s'.meta[j].phase.Live?
                    && s'.meta[j].lastGen < g <= s'.r.slots[j].generation
        ensures Covered(s', j, g)
      {
        assert Covered(s, j, g);
      }
    }
  }

  lemma GotoCount(s: Sys, t: nat, pc: CallPc)
    requires CountInv(s) && t in s.calls && InFlight(pc) == InFlight(s.calls[t].pc)
    ensures CountInv(Goto(s, t, pc))
  {
    forall i | 0 <= i < |s.r.slots|
      ensures s.r.slots[i].inFlight == |Holders(Goto(s, t, pc).calls, i)|
    {
      HoldersAfter(s.calls, t, s.calls[t].(pc := pc), i);
    }
  }

  /** Moving a call that holds no request leaves every request where it is. */
  lemma KeepsInHand(s: Sys, t: nat, pc: CallPc)
    requires t in s.calls && !s.calls[t].pc.Requested? && !s.calls[t].pc.Launching?
    ensures forall i, g :: InHand(s.calls, i, g) ==> InHand(s.calls[t := s.calls[t].(pc := pc)], i, g)
  {
    forall i, g | InHand(s.calls, i, g) ensures InHand(s.calls[t := s.calls[t].(pc := pc)], i, g) {
      OthersInHand(s.calls, t, s.calls[t].(pc := pc), i, g);
    }
  }

  lemma {:induction false} PositionIn(todo: seq<nat>, i: nat)
    requires i in todo
    ensures Position(todo, i) < |todo| && todo[Position(todo, i)] == i
  {
    if todo[|todo| - 1] != i {
      assert todo == todo[..|todo| - 1] + [todo[|todo| - 1]];
      PositionIn(todo[..|todo| - 1], i);
    }
  }

  lemma ShutList(r: Router)
    requires TableOk(r)
    ensures var todo := Shut(r).1;
            && (forall k :: 0 <= k < |todo| ==>
                  todo[k] < |r.slots| && Entry(r.slots[todo[k]].session, todo[k]) in r.table)
            && (forall j, k :: 0 <= j < k < |todo| ==> todo[j] != todo[k])
            && (forall e :: e in r.table ==> e.id in todo)
  {
    var todo := Shut(r).1;
    forall k | 0 <= k < |todo| ensures todo[k] < |r.slots| && Entry(r.slots[todo[k]].session, todo[k]) in r.table {
      assert r.table[k] in r.table;
    }
    forall j, k | 0 <= j < k < |todo| ensures todo[j] != todo[k] {
      assert r.table[j] in r.table && r.table[k] in r.table;
    }
    forall e | e in r.table ensures e.id in todo {
      var k :| 0 <= k < |r.table| && r.table[k] == e;
      assert todo[k] == e.id;
    }
  }

  lemma ShutdownPhase(s: Sys)
    requires MapInv(s) && PhaseInv(s) && Enabled(s, Shutdown)
    ensures PhaseInv(Apply(s, Shutdown))
  {
    var s' := Apply(s, Shutdown);
    ShutList(s.r);
    forall i | 0 <= i < |s.r.slots| ensures PhaseOk(s', i) {
      assert PhaseOk(s, i);
      if s.meta[i].phase.Live? {
        assert !s.r.closed && s.closers == [];
        PositionIn(Shut(s.r).1, i);
      }
    }
  }

  lemma ShutdownInv(s: Sys)
    requires Inv(s) && Enabled(s, Shutdown)
    ensures Inv(Apply(s, Shutdown))
  {
    var s' := Apply(s, Shutdown);
    ShutdownPhase(s);
    ShutdownCloser(s);
    forall i | 0 <= i < |s.r.slots| ensures OwnerOk(s', i) { assert OwnerOk(s, i); }
    forall u | u in s'.calls ensures CallOk(s', u, s'.calls[u]) { assert CallOk(s, u, s.calls[u]); }
    forall v | 0 <= v < |s'.workers| ensures WorkerOk(s', v) { assert WorkerOk(s, v); }
  }

  lemma ShutdownCloser(s: Sys)
    requires MapInv(s) && PhaseInv(s) && CloserInv(s) && Enabled(s, Shutdown)
    ensures CloserInv(Apply(s, Shutdown))
  {
    var s' := Apply(s, Shutdown);
    var todo := Shut(s.r).1;
    ShutList(s.r);
    if s.closers == [] {
      forall n | 0 <= n < |todo| ensures todo[n] < |s'.meta| && s'.meta[todo[n]].phase == Doomed(n) {
        assert PhaseOk(s, todo[n]);
        PositionIn(todo, todo[n]);
      }
    }
  }

  /** Steps that only move a closer's program counter. */
  lemma CloserStep(s: Sys, c: nat, pc: CloserPc)
    requires Inv(s) && c < |s.closers|
    requires c == 0 ==> Progress(s.closers[0].(pc := pc)) == Progress(s.closers[0])
    requires c == 0 && s.closers[0].pc == Draining && pc != Draining ==>
               forall i :: 0 <= i < |s.r.slots| ==> s.r.slots[i].inFlight == 0
    requires c == 0 && pc == Draining ==> s.closers[0].pc == Draining
    ensures Inv(SetCloser(s, c, pc))
  {
    var s' := SetCloser(s, c, pc);
    forall i | 0 <= i < |s.r.slots| ensures PhaseOk(s', i) && OwnerOk(s', i) { assert PhaseOk(s, i) && OwnerOk(s, i); }
    forall u | u in s'.calls ensures CallOk(s', u, s'.calls[u]) { assert CallOk(s, u, s.calls[u]); }
    forall v | 0 <= v < |s'.workers| ensures WorkerOk(s', v) { assert WorkerOk(s, v); }
  }

  /** Once the first closer's list is drained nobody is in flight anywhere: a call in flight
      after shutdown holds a slot of that list. */
  lemma DrainedEverywhere(s: Sys, i: nat)
    requires Inv(s) && Enabled(s, Drained(0)) && i < |s.r.slots|
    ensures s.r.slots[i].inFlight == 0
  {
    assert PhaseOk(s, i);
  }

  lemma DrainedInv(s: Sys, c: nat)
    requires Inv(s) && Enabled(s, Drained(c))
    ensures Inv(Apply(s, Drained(c)))
  {
    if c == 0 {
      forall i | 0 <= i < |s.r.slots| ensures s.r.slots[i].inFlight == 0 { DrainedEverywhere(s, i); }
    }
    CloserStep(s, c, Closing(0));
  }

  lemma ReturnInv(s: Sys, c: nat)
    requires Inv(s) && Enabled(s, Return(c))
    ensures Inv(Apply(s, Return(c)))
  {
    CloserStep(s, c, Returned);
  }

  lemma CloseNextPhase(s: Sys)
    requires MapInv(s) && PhaseInv(s) && CloserInv(s) && Enabled(s, CloseNext(0))
    ensures PhaseInv(Apply(s, CloseNext(0)))
  {
    var s' := Apply(s, CloseNext(0));
    var next := s.closers[0].pc.next;
    assert s.meta[s.closers[0].todo[next]].phase == Doomed(next);
    forall j | 0 <= j < |s.r.slots| ensures PhaseOk(s', j) { assert PhaseOk(s, j); }
  }

  lemma CloseNextInv(s: Sys, c: nat)
    requires Inv(s) && Enabled(s, CloseNext(c))
    ensures Inv(Apply(s, CloseNext(c)))
  {
    var s' := Apply(s, CloseNext(c));
    assert c == 0;
    var next := s.closers[0].pc.next;
    assert s.meta[s.closers[0].todo[next]].phase == Doomed(next);
    CloseNextPhase(s);
    CompletionKept(s, s');
    forall u | u in s'.calls ensures CallOk(s', u, s'.calls[u]) { assert CallOk(s, u, s.calls[u]); }
  }

  // ---------- admission ----------

  lemma JoinInv(s: Sys, t: nat, id: nat)
    requires Inv(s) && At(s, t, Cleared) && !s.r.closed
    requires Owns(s.r, id, s.calls[t].session, s.calls[t].bridgeId)
    ensures Inv(s.(r := Raise(s.r, id), calls := s.calls[t := s.calls[t].(pc := Admitted, slot := id)]))
  {
    var c := s.calls[t].(pc := Admitted, slot := id);
    var slot := s.r.slots[id];
    assert PhaseOk(s, id) && CallOk(s, t, s.calls[t]);
    TouchInv(s, t, c, slot.(inFlight := slot.inFlight + 1), s.meta[id]);
    assert s.meta[id := s.meta[id]] == s.meta;
  }

  /** The state after an admission that created slot `|slots|`, retiring at most one other. */
  ghost function AfterCreate(s: Sys, t: nat, r: Router, retired: Option<nat>): Sys
    requires t in s.calls && (retired.Some? ==> retired.value < |s.meta|)
  {
    var c := s.calls[t];
    var meta := if retired.Some? then s.meta[retired.value := s.meta[retired.value].(phase := Stale(t))] else s.meta;
    s.(r := r, meta := meta + [NewMeta()],
       calls := s.calls[t := c.(pc := if retired.Some? then Retiring(retired.value) else Admitted,
                                slot := |s.r.slots|)])
  }

  ghost predicate Creates(s: Sys, t: nat, r: Router, retired: Option<nat>) {
    && At(s, t, Cleared) && !s.r.closed && TableOk(r)
    && Opens(s.r, r, s.calls[t].session, s.calls[t].bridgeId, |s.r.slots|, retired)
    && (retired.Some? ==> retired.value < |s.meta|)
  }

  lemma CreatedCount(s: Sys, t: nat, r: Router, retired: Option<nat>)
    requires Inv(s) && Creates(s, t, r, retired)
    ensures CountInv(AfterCreate(s, t, r, retired))
  {
    var s' := AfterCreate(s, t, r, retired);
    var n := |s.r.slots|;
    forall i | 0 <= i < |s'.r.slots| ensures s'.r.slots[i].inFlight == |Holders(s'.calls, i)| {
      HoldersAfter(s.calls, t, s'.calls[t], i);
      if i == n {
        forall u | u in s.calls && InFlight(s.calls[u].pc) ensures s.calls[u].slot != n {
          assert CallOk(s, u, s.calls[u]);
        }
        assert Holders(s.calls, n) == {};
      }
    }
  }

  lemma CreatedCompletion(s: Sys, t: nat, r: Router, retired: Option<nat>)
    requires Inv(s) && Creates(s, t, r, retired) && s.lock.None?
    ensures |AfterCreate(s, t, r, retired).meta| == |r.slots| && CompletionInv(AfterCreate(s, t, r, retired))
  {
    var s' := AfterCreate(s, t, r, retired);
    forall i | 0 <= i < |s'.r.slots| ensures OwnerOk(s', i) {
      if i < |s.r.slots| { assert OwnerOk(s, i); }
    }
    forall w | 0 <= w < |s'.workers| ensures WorkerOk(s', w) { assert WorkerOk(s, w); }
  }

  lemma CreatedCalls(s: Sys, t: nat, r: Router, retired: Option<nat>)
    requires Inv(s) && Creates(s, t, r, retired)
    ensures MapInv(AfterCreate(s, t, r, retired)) && CallsInv(AfterCreate(s, t, r, retired))
  {
    var s' := AfterCreate(s, t, r, retired);
    forall u | u in s'.calls ensures CallOk(s', u, s'.calls[u]) {
      assert CallOk(s, u, s.calls[u]);
      if retired.Some? { assert PhaseOk(s, retired.value); }
    }
  }

  lemma CreatedPhase(s: Sys, t: nat, r: Router, retired: Option<nat>)
    requires Inv(s) && Creates(s, t, r, retired)
    ensures |AfterCreate(s, t, r, retired).meta| == |r.slots| && PhaseInv(AfterCreate(s, t, r, retired))
    ensures CloserInv(AfterCreate(s, t, r, retired))
  {
    var s' := AfterCreate(s, t, r, retired);
    forall i | 0 <= i < |s'.r.slots| ensures PhaseOk(s', i) {
      if i < |s.r.slots| { assert PhaseOk(s, i); }
      if retired == Some(i) { assert Entry(s.r.slots[i].session, i) !in r.table; }
    }
  }

  lemma CreatedRequests(s: Sys, t: nat, r: Router, retired: Option<nat>)
    requires Inv(s) && Creates(s, t, r, retired)
    ensures |AfterCreate(s, t, r, retired).meta| == |r.slots| && RequestInv(AfterCreate(s, t, r, retired))
  {
    var s' := AfterCreate(s, t, r, retired);
    forall i, g | 0 <= i < |s'.r.slots| && s'.meta[i].phase.Live? && s'.meta[i].lastGen < g <= s'.r.slots[i].generation
      ensures Covered(s', i, g)
    {
      assert i < |s.r.slots| && Covered(s, i, g);
      if InHand(s.calls, i, g) { OthersInHand(s.calls, t, s'.calls[t], i, g); }
    }
  }

  lemma EnterInv(s: Sys, t: nat)
    requires Inv(s) && Enabled(s, Enter(t))
    ensures Inv(Apply(s, Enter(t)))
  {
    var c := s.calls[t];
    var (r, out) := Admit(s.r, c.session, c.bridgeId);
    AdmitDecides(s.r, c.session, c.bridgeId);
    match out
    case Refused(_) =>
      assert CallOk(s, t, c);
      IdleInv(s, t, c.(pc := Gone));
    case Joined(id) => JoinInv(s, t, id);
    case Created(id, retired) =>
      CreatedCount(s, t, r, retired);
      CreatedCompletion(s, t, r, retired);
      CreatedCalls(s, t, r, retired);
      CreatedPhase(s, t, r, retired);
      CreatedRequests(s, t, r, retired);
      assert Apply(s, Enter(t)) == AfterCreate(s, t, r, retired);
  }

  // ---------- every step ----------

  lemma StepInv(s: Sys, e: Step)
    requires Inv(s) && Enabled(s, e)
    ensures Inv(Apply(s, e))
  {
    match e
    case Arrive(_, _, _, _) => ArriveInv(s, e);
    case Gate(_, _, _, _) => GateInv(s, e);
    case Enter(t) => EnterInv(s, t);
    case CloseStale(t, fails) => CloseStaleInv(s, t, fails);
    case Begin(t) => BeginInv(s, t);
    case End(t, ok) => EndInv(s, t, ok);
    case Ask(t, eligible) => AskInv(s, t, eligible);
    case Drop(t) => DropInv(s, t);
    case CheckLaunch(t) => CheckLaunchInv(s, t);
    case Launch(t, starts) => LaunchInv(s, t, starts);
    case Leave(t) => LeaveInv(s, t);
    case FinishCycle(w, stillActive) => FinishInv(s, w, stillActive);
    case Rearm(w, starts) => RearmInv(s, w, starts);
    case Shutdown => ShutdownInv(s);
    case Drained(c) => DrainedInv(s, c);
    case CloseNext(c) => CloseNextInv(s, c);
    case Return(c) => ReturnInv(s, c);
  }

  /** `states` is what a run from a new router goes through when it takes `steps`. */
  ghost predicate IsRun(states: seq<Sys>, steps: seq<Step>) {
    && |states| == |steps| + 1 && states[0] == Init()
    && forall k :: 0 <= k < |steps| ==> Enabled(states[k], steps[k]) && states[k + 1] == Apply(states[k], steps[k])
  }

  lemma {:induction false} RunInv(states: seq<Sys>, steps: seq<Step>, k: nat)
    requires IsRun(states, steps) && k <= |steps|
    ensures Inv(states[k])
  {
    if k == 0 {
      InitInv();
    } else {
      RunInv(states, steps, k - 1);
      StepInv(states[k - 1], steps[k - 1]);
    }
  }
}
