/** What every reachable state of the router satisfies, and its preservation step by step. */
module RouterInvariant {
  import opened Wrappers
  import opened RouterSpec
  import opened RouterMachine

  // ---------- the invariant ----------

  ghost function Holders(calls: map<nat, Call>, i: nat): set<nat> {
    set t | t in calls && InFlight(calls[t].pc) && calls[t].slot == i
  }

  ghost predicate MapInv(s: Sys) {
    TableOk(s.r) && |s.meta| == |s.r.slots| && (s.r.closed <==> s.closers != []) && (s.r.closed ==> s.r.table == [])
  }

  ghost predicate CallOk(s: Sys, t: nat, c: Call)
    requires |s.meta| == |s.r.slots|
  {
    && (InFlight(c.pc) ==>
          c.slot < |s.r.slots| && s.r.slots[c.slot].session == c.session && s.r.slots[c.slot].bridgeId == c.bridgeId)
    && (c.pc.Executing? ==> s.meta[c.slot].holder == Some(t))
    && (c.pc.Retiring? ==> c.pc.victim < |s.meta| && s.meta[c.pc.victim].phase == Stale(t))
    && c.runs <= 1 && (c.pc.Verified? || c.pc.Cleared? || c.pc.Retiring? || c.pc.Admitted? ==> c.runs == 0)
  }

  ghost predicate CallsInv(s: Sys)
    requires |s.meta| == |s.r.slots|
  {
    forall t :: t in s.calls ==> CallOk(s, t, s.calls[t])
  }

  ghost predicate CountInv(s: Sys) {
    forall i :: 0 <= i < |s.r.slots| ==> s.r.slots[i].inFlight == |Holders(s.calls, i)|
  }

  /** A slot's completion owner is a live worker of that slot, started with the recorded generation. */
  ghost predicate OwnerOk(s: Sys, i: nat)
    requires i < |s.r.slots| && i < |s.meta|
  {
    var slot := s.r.slots[i];
    && (slot.active <==> slot.thread.Some?)
    && (slot.active ==>
          slot.thread.value < |s.workers| && s.workers[slot.thread.value].slot == i
          && s.workers[slot.thread.value].pc != Ended && s.workers[slot.thread.value].gen == s.meta[i].lastGen)
    && s.meta[i].lastGen <= slot.generation
  }

  ghost predicate WorkerOk(s: Sys, w: nat)
    requires w < |s.workers|
  {
    && (s.workers[w].pc != Ended ==>
          s.workers[w].slot < |s.r.slots| && s.r.slots[s.workers[w].slot].thread == Some(w))
    && (s.workers[w].pc == Rearming ==> s.lock == Some(w) && !LaunchRefused(s.r, s.workers[w].slot))
  }

  ghost predicate CompletionInv(s: Sys)
    requires |s.meta| == |s.r.slots|
  {
    && (forall i :: 0 <= i < |s.r.slots| ==> OwnerOk(s, i))
    && (forall w :: 0 <= w < |s.workers| ==> WorkerOk(s, w))
  }

  /** Request `g` of slot `i` is still in its own caller's hands. */
  ghost predicate InHand(calls: map<nat, Call>, i: nat, g: int) {
    exists t :: t in calls && calls[t].slot == i && (calls[t].pc == Requested(g) || calls[t].pc == Launching(g))
  }

  ghost predicate Covered(s: Sys, i: nat, g: int)
    requires i < |s.r.slots| && i < |s.meta|
  {
    s.r.slots[i].active || g in s.meta[i].dropped || InHand(s.calls, i, g)
  }

  ghost predicate RequestInv(s: Sys)
    requires |s.meta| == |s.r.slots|
  {
    !s.r.closed ==>
      forall i, g :: 0 <= i < |s.r.slots| && s.meta[i].phase.Live? && s.meta[i].lastGen < g <= s.r.slots[i].generation
        ==> Covered(s, i, g)
  }

  ghost predicate PhaseOk(s: Sys, i: nat)
    requires i < |s.r.slots| && i < |s.meta|
  {
    var slot, m := s.r.slots[i], s.meta[i];
    && (m.holder.Some? ==>
          m.holder.value in s.calls && s.calls[m.holder.value].pc == Executing && s.calls[m.holder.value].slot == i)
    && (m.phase.Live? <==> Entry(slot.session, i) in s.r.table)
    && (m.phase.Stale? ==>
          slot.inFlight == 0 && !slot.active && m.phase.t in s.calls && s.calls[m.phase.t].pc == Retiring(i))
    && (m.phase.Doomed? ==>
          s.closers != [] && m.phase.k < |s.closers[0].todo| && s.closers[0].todo[m.phase.k] == i
          && m.phase.k >= Progress(s.closers[0]))
    && (m.phase.Closed? ==> slot.inFlight == 0 && (slot.active ==> m.phase.atShutdown))
    && m.closes == (if m.phase.Closed? then 1 else 0)
    && m.adapterCloses == (if m.phase.Closed? && slot.hasAdapter then 1 else 0)
  }

  ghost predicate PhaseInv(s: Sys)
    requires |s.meta| == |s.r.slots|
  {
    forall i :: 0 <= i < |s.r.slots| ==> PhaseOk(s, i)
  }

  /** How far a closer has got through its list. */
  ghost function Progress(c: Closer): int {
    match c.pc
    case Draining => 0
    case Closing(next) => next
    case Returned => |c.todo|
  }

  ghost predicate CloserInv(s: Sys)
    requires |s.meta| == |s.r.slots|
  {
    && (forall c :: 0 < c < |s.closers| ==> s.closers[c].todo == [])
    && (s.closers != [] ==>
          && 0 <= Progress(s.closers[0]) <= |s.closers[0].todo|
          && (forall n :: 0 <= n < |s.closers[0].todo| ==>
                s.closers[0].todo[n] < |s.meta|
                && s.meta[s.closers[0].todo[n]].phase
                   == if n < Progress(s.closers[0]) then Closed(true) else Doomed(n))
          && (s.closers[0].pc != Draining ==>
                forall i :: 0 <= i < |s.r.slots| ==> s.r.slots[i].inFlight == 0))
  }

  ghost predicate Inv(s: Sys) {
    MapInv(s) && CallsInv(s) && CountInv(s) && CompletionInv(s) && RequestInv(s) && PhaseInv(s) && CloserInv(s)
  }

  lemma InitInv()
    ensures Inv(Init())
  {
  }

  // ---------- counting holders ----------

  lemma HoldersAfter(calls: map<nat, Call>, t: nat, c: Call, i: nat)
    requires t in calls
    ensures |Holders(calls[t := c], i)|
         == |Holders(calls, i)|
            + (if InFlight(c.pc) && c.slot == i then 1 else 0)
            - (if InFlight(calls[t].pc) && calls[t].slot == i then 1 else 0)
  {
    var before, after := Holders(calls, i), Holders(calls[t := c], i);
    assert after - {t} == before - {t};
    assert t in before ==> |before - {t}| == |before| - 1;
    assert t in after ==> |after - {t}| == |after| - 1;
    assert t !in before ==> before - {t} == before;
    assert t !in after ==> after - {t} == after;
  }

  lemma NoHolder(calls: map<nat, Call>, i: nat, t: nat)
    requires |Holders(calls, i)| == 0 && t in calls && InFlight(calls[t].pc)
    ensures calls[t].slot != i
  {
    assert t in calls && calls[t].slot == i ==> t in Holders(calls, i);
  }

  // ---------- steps that move one call and touch at most its own slot ----------

  /** Call `t` becomes `c`, and its slot and the slot's bookkeeping become `slot` and `m`. */
  ghost function Touch(s: Sys, t: nat, c: Call, slot: Slot, m: Meta): Sys
    requires c.slot < |s.r.slots| && c.slot < |s.meta|
  {
    s.(r := s.r.(slots := s.r.slots[c.slot := slot]), meta := s.meta[c.slot := m], calls := s.calls[t := c])
  }

  ghost function Delta(before: Call, after: Call): int {
    (if InFlight(after.pc) then 1 else 0) - (if InFlight(before.pc) && before.slot == after.slot then 1 else 0)
  }

  /** What makes a touch harmless to everything it does not touch. */
  ghost predicate Gentle(s: Sys, t: nat, c: Call, slot: Slot, m: Meta) {
    && t in s.calls && c.slot < |s.r.slots| && c.slot < |s.meta|
    && var i, b := c.slot, s.calls[t];
    && var before, was := s.r.slots[i], s.meta[i];
    && c.session == b.session && c.bridgeId == b.bridgeId && (InFlight(b.pc) ==> b.slot == i)
    && !b.pc.Retiring?
    && slot.session == before.session && slot.bridgeId == before.bridgeId
    && slot.inFlight == before.inFlight + Delta(b, c)
    && slot.thread == before.thread && slot.active == before.active
    && m.lastGen == was.lastGen && was.dropped <= m.dropped && m.phase == was.phase && m.closes == was.closes
    && m.adapterCloses == was.adapterCloses
    && before.generation <= slot.generation
    && (m.holder == was.holder
        || (was.holder == Some(t) && m.holder.None?) || (was.holder.None? && m.holder == Some(t)))
  }

  /** The local obligations of a touch. */
  ghost predicate TouchOk(s: Sys, t: nat, c: Call, slot: Slot, m: Meta)
    requires Gentle(s, t, c, slot, m)
  {
    var i, b := c.slot, s.calls[t];
    && (InFlight(c.pc) || c.pc.Gone?) && !c.pc.Retiring?
    && (c.pc.Executing? <==> m.holder == Some(t))
    && slot.session == c.session && slot.bridgeId == c.bridgeId
    && c.runs <= 1 && (c.pc.Verified? || c.pc.Cleared? || c.pc.Retiring? || c.pc.Admitted? ==> c.runs == 0)
  }

  lemma HoldersElsewhere(s: Sys, t: nat, c: Call)
    requires CountInv(s) && t in s.calls && c.slot < |s.r.slots|
    requires InFlight(s.calls[t].pc) ==> s.calls[t].slot == c.slot
    ensures forall j :: 0 <= j < |s.r.slots| ==>
              |Holders(s.calls[t := c], j)|
              == s.r.slots[j].inFlight + if j == c.slot then Delta(s.calls[t], c) else 0
  {
    forall j | 0 <= j < |s.r.slots|
      ensures |Holders(s.calls[t := c], j)| == s.r.slots[j].inFlight + if j == c.slot then Delta(s.calls[t], c) else 0
    {
      HoldersAfter(s.calls, t, c, j);
    }
  }

  lemma TouchMap(s: Sys, t: nat, c: Call, slot: Slot, m: Meta)
    requires MapInv(s) && Gentle(s, t, c, slot, m)
    ensures MapInv(Touch(s, t, c, slot, m))
  {
  }

  lemma TouchCount(s: Sys, t: nat, c: Call, slot: Slot, m: Meta)
    requires CountInv(s) && Gentle(s, t, c, slot, m)
    ensures CountInv(Touch(s, t, c, slot, m))
  {
    HoldersElsewhere(s, t, c);
  }

  lemma TouchCompletion(s: Sys, t: nat, c: Call, slot: Slot, m: Meta)
    requires |s.meta| == |s.r.slots| && CompletionInv(s) && Gentle(s, t, c, slot, m)
    ensures CompletionInv(Touch(s, t, c, slot, m))
  {
    var s' := Touch(s, t, c, slot, m);
    forall i | 0 <= i < |s'.r.slots| ensures OwnerOk(s', i) { assert OwnerOk(s, i); }
    forall w | 0 <= w < |s'.workers| ensures WorkerOk(s', w) { assert WorkerOk(s, w); }
  }

  lemma TouchCalls(s: Sys, t: nat, c: Call, slot: Slot, m: Meta)
    requires |s.meta| == |s.r.slots| && CallsInv(s) && Gentle(s, t, c, slot, m) && TouchOk(s, t, c, slot, m)
    ensures CallsInv(Touch(s, t, c, slot, m))
  {
    var s' := Touch(s, t, c, slot, m);
    forall u | u in s'.calls ensures CallOk(s', u, s'.calls[u]) {
      if u != t { assert CallOk(s, u, s.calls[u]); }
    }
  }

  /** Slot `i` is in use: neither unmapped and idle nor closed, and not past draining. */
  ghost predicate InUse(s: Sys, i: nat) {
    i < |s.meta| && !s.meta[i].phase.Closed? && !s.meta[i].phase.Stale?
    && (s.closers == [] || s.closers[0].pc == Draining)
  }

  lemma TouchPhase(s: Sys, t: nat, c: Call, slot: Slot, m: Meta)
    requires MapInv(s) && PhaseInv(s) && CallsInv(s)
    requires Gentle(s, t, c, slot, m) && TouchOk(s, t, c, slot, m) && InUse(s, c.slot)
    ensures PhaseInv(Touch(s, t, c, slot, m))
  {
    var s' := Touch(s, t, c, slot, m);
    forall i | 0 <= i < |s'.r.slots| ensures PhaseOk(s', i) { assert PhaseOk(s, i); }
  }

  lemma TouchCloser(s: Sys, t: nat, c: Call, slot: Slot, m: Meta)
    requires |s.meta| == |s.r.slots| && CloserInv(s) && Gentle(s, t, c, slot, m) && InUse(s, c.slot)
    ensures CloserInv(Touch(s, t, c, slot, m))
  {
  }

  /** Requests that `t` does not hold stay in hand. */
  lemma OthersInHand(calls: map<nat, Call>, t: nat, c: Call, i: nat, g: int)
    requires t in calls && InHand(calls, i, g)
    requires (calls[t].pc != Requested(g) && calls[t].pc != Launching(g)) || calls[t].slot != i
    ensures InHand(calls[t := c], i, g)
  {
    var u :| u in calls && calls[u].slot == i && (calls[u].pc == Requested(g) || calls[u].pc == Launching(g));
    assert u in calls[t := c] && calls[t := c][u] == calls[u];
  }

  /** The request `t` held is still in hand, or dropped, or covered by a running worker; and a
      request `t` just made is in hand. */
  ghost predicate KeepsRequests(s: Sys, t: nat, c: Call, slot: Slot, m: Meta)
    requires Gentle(s, t, c, slot, m)
  {
    var b := s.calls[t];
    && (forall g :: b.pc == Requested(g) || b.pc == Launching(g) ==>
          c.pc == Requested(g) || c.pc == Launching(g) || g in m.dropped || slot.active || s.r.closed)
    && (forall g :: s.r.slots[c.slot].generation < g <= slot.generation ==> c.pc == Requested(g))
  }

  lemma TouchRequests(s: Sys, t: nat, c: Call, slot: Slot, m: Meta)
    requires |s.meta| == |s.r.slots| && RequestInv(s) && Gentle(s, t, c, slot, m) && KeepsRequests(s, t, c, slot, m)
    requires s.calls[t].pc.Requested? || s.calls[t].pc.Launching? ==> s.calls[t].slot == c.slot
    ensures RequestInv(Touch(s, t, c, slot, m))
  {
    var s' := Touch(s, t, c, slot, m);
    if !s.r.closed {
      forall i, g | 0 <= i < |s'.r.slots| && s'.meta[i].phase.Live?
                    && s'.meta[i].lastGen < g <= s'.r.slots[i].generation
        ensures Covered(s', i, g)
      {
        if g <= s.r.slots[i].generation {
          assert Covered(s, i, g);
          if InHand(s.calls, i, g)
             && (s.calls[t].slot != i || (s.calls[t].pc != Requested(g) && s.calls[t].pc != Launching(g))) {
            OthersInHand(s.calls, t, c, i, g);
          }
        } 
        assert s'.calls[t] == c;
      }
    }
  }

  lemma TouchInv(s: Sys, t: nat, c: Call, slot: Slot, m: Meta)
    requires Inv(s) && Gentle(s, t, c, slot, m) && TouchOk(s, t, c, slot, m) && InUse(s, c.slot)
    requires KeepsRequests(s, t, c, slot, m)
    ensures Inv(Touch(s, t, c, slot, m))
  {
    TouchMap(s, t, c, slot, m);
    TouchCalls(s, t, c, slot, m);
    TouchCount(s, t, c, slot, m);
    TouchCompletion(s, t, c, slot, m);
    TouchRequests(s, t, c, slot, m);
    TouchPhase(s, t, c, slot, m);
    TouchCloser(s, t, c, slot, m);
  }

  /** A slot somebody holds has not been closed. */
  lemma HeldSlot(s: Sys, t: nat)
    requires Inv(s) && t in s.calls && InFlight(s.calls[t].pc)
    ensures var i := s.calls[t].slot;
            i < |s.r.slots| && s.r.slots[i].inFlight > 0 && InUse(s, i)
            && (!s.r.closed ==> s.meta[i].phase.Live?)
  {
    var i := s.calls[t].slot;
    assert CallOk(s, t, s.calls[t]);
    assert t in Holders(s.calls, i);
    assert PhaseOk(s, i);
  }

  lemma BeginInv(s: Sys, t: nat)
    requires Inv(s) && Enabled(s, Begin(t))
    ensures Inv(Apply(s, Begin(t)))
    ensures At(Apply(s, Begin(t)), t, Executing)
  {
    HeldSlot(s, t);
    var c := s.calls[t];
    assert CallOk(s, t, c);
    var c', slot, m := c.(pc := Executing, runs := c.runs + 1), s.r.slots[c.slot].(hasAdapter := true),
                       s.meta[c.slot].(holder := Some(t));
    assert Apply(s, Begin(t)) == Touch(s, t, c', slot, m);
    TouchInv(s, t, c', slot, m);
  }

  lemma EndInv(s: Sys, t: nat, ok: bool)
    requires Inv(s) && Enabled(s, End(t, ok))
    ensures Inv(Apply(s, End(t, ok)))
  {
    HeldSlot(s, t);
    var c := s.calls[t];
    assert CallOk(s, t, c);
    TouchInv(s, t, c.(pc := Ran(ok)), s.r.slots[c.slot], s.meta[c.slot].(holder := None));
    assert s.r.slots[c.slot := s.r.slots[c.slot]] == s.r.slots;
  }

  lemma AskInv(s: Sys, t: nat, eligible: bool)
    requires Inv(s) && Enabled(s, Ask(t, eligible))
    ensures Inv(Apply(s, Ask(t, eligible)))
  {
    HeldSlot(s, t);
    var c := s.calls[t];
    var i := c.slot;
    assert CallOk(s, t, c) && PhaseOk(s, i);
    var (slot, requested) := Request(s.r.slots[i], c.isTaskStart);
    assert s.meta[i := s.meta[i]] == s.meta && s.r.slots[i := s.r.slots[i]] == s.r.slots;
    if c.pc.ok && eligible && requested {
      TouchInv(s, t, c.(pc := Requested(slot.generation)), slot, s.meta[i]);
    } else {
      TouchInv(s, t, c.(pc := Leaving), s.r.slots[i], s.meta[i]);
    }
  }

  lemma DropInv(s: Sys, t: nat)
    requires Inv(s) && Enabled(s, Drop(t))
    ensures Inv(Apply(s, Drop(t)))
  {
    HeldSlot(s, t);
    var c := s.calls[t];
    var i := c.slot;
    assert CallOk(s, t, c) && PhaseOk(s, i);
    TouchInv(s, t, c.(pc := Leaving), s.r.slots[i], s.meta[i].(dropped := s.meta[i].dropped + {c.pc.g}));
    assert s.r.slots[i := s.r.slots[i]] == s.r.slots;
  }

  lemma CheckLaunchInv(s: Sys, t: nat)
    requires Inv(s) && Enabled(s, CheckLaunch(t))
    ensures Inv(Apply(s, CheckLaunch(t)))
    ensures !s.r.closed ==> Apply(s, CheckLaunch(t)).calls[t].pc.Launching?
  {
    HeldSlot(s, t);
    var c := s.calls[t];
    var i := c.slot;
    assert CallOk(s, t, c) && PhaseOk(s, i);
    FindExact(s.r.table, s.r.slots[i].session, i);
    var pc := if LaunchRefused(s.r, i) then Leaving else Launching(c.pc.g);
    TouchInv(s, t, c.(pc := pc), s.r.slots[i], s.meta[i]);
    assert s.meta[i := s.meta[i]] == s.meta && s.r.slots[i := s.r.slots[i]] == s.r.slots;
  }

  lemma LeaveInv(s: Sys, t: nat)
    requires Inv(s) && Enabled(s, Leave(t))
    ensures Inv(Apply(s, Leave(t)))
  {
    HeldSlot(s, t);
    var c := s.calls[t];
    var slot := s.r.slots[c.slot];
    assert CallOk(s, t, c) && PhaseOk(s, c.slot);
    TouchInv(s, t, c.(pc := Gone), slot.(inFlight := slot.inFlight - 1), s.meta[c.slot]);
    assert s.meta[c.slot := s.meta[c.slot]] == s.meta;
  }

  // ---------- calls that hold no slot ----------

  ghost function Put(s: Sys, t: nat, c: Call): Sys { s.(calls := s.calls[t := c]) }

  lemma IdleInv(s: Sys, t: nat, c: Call)
    requires Inv(s) && !InFlight(c.pc) && c.runs == 0
    requires t in s.calls ==> !InFlight(s.calls[t].pc)
    ensures Inv(Put(s, t, c))
  {
    var s' := Put(s, t, c);
    forall i | 0 <= i < |s.r.slots| ensures Holders(s'.calls, i) == Holders(s.calls, i) {}
    forall u | u in s'.calls ensures CallOk(s', u, s'.calls[u]) {
      if u != t { assert CallOk(s, u, s.calls[u]); }
    }
    forall i | 0 <= i < |s.r.slots| ensures OwnerOk(s', i) && PhaseOk(s', i) {
      assert OwnerOk(s, i) && PhaseOk(s, i);
    }
    forall w | 0 <= w < |s.workers| ensures WorkerOk(s', w) { assert WorkerOk(s, w); }
    IdleRequests(s, t, c);
  }

  lemma IdleRequests(s: Sys, t: nat, c: Call)
    requires |s.meta| == |s.r.slots| && RequestInv(s) && (t in s.calls ==> !InFlight(s.calls[t].pc))
    ensures RequestInv(Put(s, t, c))
  {
    var s' := Put(s, t, c);
    if !s.r.closed {
      forall i, g | 0 <= i < |s.r.slots| && s.meta[i].phase.Live? && s.meta[i].lastGen < g <= s.r.slots[i].generation
        ensures Covered(s', i, g)
      {
        assert Covered(s, i, g);
        if InHand(s.calls, i, g) {
          var u :| u in s.calls && s.calls[u].slot == i
                   && (s.calls[u].pc == Requested(g) || s.calls[u].pc == Launching(g));
          assert u in s'.calls && s'.calls[u] == s.calls[u];
        }
      }
    }
  }

  lemma ArriveInv(s: Sys, e: Step)
    requires Inv(s) && e.Arrive? && Enabled(s, e)
    ensures Inv(Apply(s, e))
  {
    IdleInv(s, e.t, Call(e.session, e.bridgeId, e.isTaskStart, Verified, 0, 0));
  }

  lemma GateInv(s: Sys, e: Step)
    requires Inv(s) && e.Gate? && Enabled(s, e)
    ensures Inv(Apply(s, e))
  {
    assert CallOk(s, e.t, s.calls[e.t]);
    IdleInv(s, e.t, Apply(s, e).calls[e.t]);
  }

  // ---------- completion workers ----------

  ghost predicate Base(s: Sys) {
    MapInv(s) && CallsInv(s) && CountInv(s) && CompletionInv(s) && PhaseInv(s) && CloserInv(s)
  }

  /** Slot `i` gets a fresh worker that captures its current generation. */
  ghost function Arm(s: Sys, i: nat): Sys
    requires i < |s.r.slots| && i < |s.meta|
  {
    var slot := s.r.slots[i];
    s.(r := s.r.(slots := s.r.slots[i := slot.(active := true, thread := Some(|s.workers|))]),
       meta := s.meta[i := s.meta[i].(lastGen := slot.generation)],
       workers := s.workers + [Worker(i, slot.generation, Cycle)])
  }

  lemma ArmCompletion(s: Sys, i: nat)
    requires |s.meta| == |s.r.slots| && i < |s.r.slots| && CompletionInv(s) && !s.r.slots[i].active
    ensures CompletionInv(Arm(s, i))
  {
    var s' := Arm(s, i);
    forall j | 0 <= j < |s'.r.slots| ensures OwnerOk(s', j) { assert OwnerOk(s, j); }
    forall w | 0 <= w < |s'.workers| ensures WorkerOk(s', w) {
      assert OwnerOk(s, i);
      if w < |s.workers| { assert WorkerOk(s, w) && s'.workers[w] == s.workers[w]; }
    }
  }

  /** Completion bookkeeping is invisible to everything but the completion invariant. */
  ghost predicate SameButCompletion(s: Sys, s': Sys) {
    && s'.r.closed == s.r.closed && s'.r.table == s.r.table && s'.calls == s.calls && s'.closers == s.closers
    && |s'.r.slots| == |s.r.slots| && |s'.meta| == |s.meta|
    && (forall i :: 0 <= i < |s.r.slots| ==>
          s'.r.slots[i] == s.r.slots[i].(active := s'.r.slots[i].active, thread := s'.r.slots[i].thread))
    && (forall i :: 0 <= i < |s.meta| ==>
          s'.meta[i] == s.meta[i].(lastGen := s'.meta[i].lastGen, dropped := s'.meta[i].dropped))
  }

  lemma CompletionOnly(s: Sys, s': Sys)
    requires Base(s) && SameButCompletion(s, s') && CompletionInv(s')
    requires forall i :: 0 <= i < |s.r.slots| && s'.r.slots[i].active && !s.r.slots[i].active ==>
               !s.meta[i].phase.Stale? && !s.meta[i].phase.Closed?
    ensures Base(s')
  {
    forall u | u in s'.calls ensures CallOk(s', u, s'.calls[u]) { assert CallOk(s, u, s.calls[u]); }
    forall i | 0 <= i < |s'.r.slots| ensures PhaseOk(s', i) { assert PhaseOk(s, i); }
  }

  lemma ArmInv(s: Sys, i: nat)
    requires Inv(s) && i < |s.r.slots| && !s.r.slots[i].active
    requires !s.meta[i].phase.Stale? && !s.meta[i].phase.Closed?
    ensures Inv(Arm(s, i))
  {
    ArmCompletion(s, i);
    CompletionOnly(s, Arm(s, i));
    var s' := Arm(s, i);
    if !s'.r.closed {
      forall j, g | 0 <= j < |s'.r.slots| && s'.meta[j].phase.Live?
                    && s'.meta[j].lastGen < g <= s'.r.slots[j].generation
        ensures Covered(s', j, g)
      {
        assert Covered(s, j, g);
      }
    }
  }

  lemma LaunchBusy(s: Sys, t: nat, starts: bool)
    requires Inv(s) && Enabled(s, Launch(t, starts)) && s.r.slots[s.calls[t].slot].active
    ensures Inv(Apply(s, Launch(t, starts)))
  {
    HeldSlot(s, t);
    var c := s.calls[t];
    var i := c.slot;
    assert CallOk(s, t, c) && PhaseOk(s, i);
    TouchInv(s, t, c.(pc := Leaving), s.r.slots[i], s.meta[i]);
    assert s.meta[i := s.meta[i]] == s.meta && s.r.slots[i := s.r.slots[i]] == s.r.slots;
  }

  lemma LaunchStarts(s: Sys, t: nat)
    requires Inv(s) && Enabled(s, Launch(t, true)) && !s.r.slots[s.calls[t].slot].active
    ensures Inv(Apply(s, Launch(t, true)))
  {
    HeldSlot(s, t);
    var c := s.calls[t];
    var i := c.slot;
    assert CallOk(s, t, c);
    ArmInv(s, i);
    var s1 := Arm(s, i);
    assert PhaseOk(s1, i);
    TouchInv(s1, t, c.(pc := Leaving), s1.r.slots[i], s1.meta[i]);
    assert s1.meta[i := s1.meta[i]] == s1.meta && s1.r.slots[i := s1.r.slots[i]] == s1.r.slots;
  }

  lemma LaunchFails(s: Sys, t: nat)
    requires Inv(s) && Enabled(s, Launch(t, false)) && !s.r.slots[s.calls[t].slot].active
    ensures Inv(Apply(s, Launch(t, false)))
  {
    HeldSlot(s, t);
    var c := s.calls[t];
    var i := c.slot;
    var m := s.meta[i];
    assert CallOk(s, t, c) && PhaseOk(s, i) && OwnerOk(s, i);
    TouchInv(s, t, c.(pc := Leaving), s.r.slots[i], m.(dropped := m.dropped + {c.pc.g}));
    assert s.r.slots[i := s.r.slots[i]] == s.r.slots;
  }

  lemma LaunchInv(s: Sys, t: nat, starts: bool)
    requires Inv(s) && Enabled(s, Launch(t, starts))
    ensures Inv(Apply(s, Launch(t, starts)))
  {
    if s.r.slots[s.calls[t].slot].active { LaunchBusy(s, t, starts); }
    else if starts { LaunchStarts(s, t); }
    else { LaunchFails(s, t); }
  }
}
