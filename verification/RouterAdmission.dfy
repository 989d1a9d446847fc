/** What admission decides in any run, in terms of the calls and workers there are. */
module RouterAdmission {
  import opened Wrappers
  import opened RouterSpec
  import opened RouterMachine
  import opened RouterInvariant
  import opened RouterSteps

  /** A call has been admitted to slot `i` and has not released it yet. */
  ghost predicate HasCall(s: Sys, i: nat) {
    exists t :: t in s.calls && InFlight(s.calls[t].pc) && s.calls[t].slot == i
  }

  /** A completion worker of slot `i` has not ended. */
  ghost predicate HasWorker(s: Sys, i: nat) {
    exists w :: 0 <= w < |s.workers| && s.workers[w].slot == i && s.workers[w].pc != Ended
  }

  ghost predicate Occupied(s: Sys, i: nat) { HasCall(s, i) || HasWorker(s, i) }

  /** The count and the flag the code looks at say just that. */
  lemma CountsCalls(s: Sys, i: nat)
    requires Inv(s) && i < |s.r.slots|
    ensures s.r.slots[i].inFlight != 0 <==> HasCall(s, i)
  {
    if s.r.slots[i].inFlight != 0 {
      var t :| t in Holders(s.calls, i);
    } else if HasCall(s, i) {
      var t :| t in s.calls && InFlight(s.calls[t].pc) && s.calls[t].slot == i;
      NoHolder(s.calls, i, t);
      assert false;
    }
  }

  lemma MarksWorker(s: Sys, i: nat)
    requires Inv(s) && i < |s.r.slots|
    ensures s.r.slots[i].active <==> HasWorker(s, i)
  {
    assert OwnerOk(s, i);
    if HasWorker(s, i) {
      var w :| 0 <= w < |s.workers| && s.workers[w].slot == i && s.workers[w].pc != Ended;
      assert WorkerOk(s, w);
    }
  }

  lemma IdleExact(s: Sys, i: nat)
    requires Inv(s) && i < |s.r.slots|
    ensures Idle(s.r, i) <==> !Occupied(s, i)
  {
    CountsCalls(s, i);
    MarksWorker(s, i);
  }

  /** The map sends `session` to slot `i`. */
  ghost predicate Serves(s: Sys, i: nat, session: string) { Entry(session, i) in s.r.table }

  ghost predicate Unserved(s: Sys, session: string) { forall i :: !Serves(s, i, session) }

  lemma FindServes(s: Sys, session: string)
    requires TableOk(s.r)
    ensures Find(s.r.table, session).None? <==> Unserved(s, session)
    ensures forall i: nat :: Find(s.r.table, session) == Some(i) <==> Serves(s, i, session)
  {
    FindInTable(s.r.table, session);
    forall i: nat ensures Find(s.r.table, session) == Some(i) <==> Serves(s, i, session) {
      FindExact(s.r.table, session, i);
    }
  }

  /** Every one of 64 mapped slots has a call or a worker. */
  ghost predicate Full(s: Sys) { |s.r.table| == 64 && forall e :: e in s.r.table ==> Occupied(s, e.id) }

  /** The first mapped slot, in the order of insertion, that has neither. */
  ghost predicate FirstVacant(s: Sys, k: nat) {
    k < |s.r.table| && !Occupied(s, s.r.table[k].id) && forall j :: 0 <= j < k ==> Occupied(s, s.r.table[j].id)
  }

  lemma AllIdle(s: Sys)
    requires Inv(s)
    ensures forall i :: 0 <= i < |s.r.slots| ==> (Idle(s.r, i) <==> !Occupied(s, i))
  {
    forall i | 0 <= i < |s.r.slots| ensures Idle(s.r, i) <==> !Occupied(s, i) { IdleExact(s, i); }
  }

  /** When an admission is refused and why, in any run: because the router is closed; because the
      session's slot is of another epoch and still has a call or a worker; or because the session
      has no slot and all of 64 have one.  A refused call is gone, and nothing else changes. */
  lemma RefusedExactly(states: seq<Sys>, steps: seq<Step>, k: nat, t: nat)
    requires IsRun(states, steps) && k < |steps| && steps[k] == Enter(t)
    ensures t in states[k].calls && InRange(states[k].r)
    ensures var s, s', c := states[k], states[k + 1], states[k].calls[t];
            var out := Admit(s.r, c.session, c.bridgeId).1;
            && (out == Refused(BridgeUnavailable) <==> s.r.closed)
            && (out == Refused(TokenEpochStale) <==>
                  && !s.r.closed
                  && exists i: nat :: Serves(s, i, c.session) && i < |s.r.slots|
                                      && s.r.slots[i].bridgeId != c.bridgeId && Occupied(s, i))
            && (out == Refused(CapacityExceeded) <==> !s.r.closed && Unserved(s, c.session) && Full(s))
            && (out.Refused? <==> s'.calls[t].pc.Gone?)
            && (out.Refused? ==> s' == s.(calls := s.calls[t := c.(pc := Gone)]))
  {
    var s := states[k];
    var c := s.calls[t];
    RunInv(states, steps, k);
    AdmitDecides(s.r, c.session, c.bridgeId);
    AllIdle(s);
    FindServes(s, c.session);
  }

  /** And what an admission that is not refused does: a call of the mapped epoch joins its session's
      slot; an unserved session gets a new slot where there is room; otherwise the new slot takes
      the place of the session's own slot of another epoch, or of the first vacant one of 64. */
  lemma AdmittedExactly(states: seq<Sys>, steps: seq<Step>, k: nat, t: nat, i: nat)
    requires IsRun(states, steps) && k < |steps| && steps[k] == Enter(t)
    ensures t in states[k].calls && InRange(states[k].r)
    ensures var s, c := states[k], states[k].calls[t];
            var out := Admit(s.r, c.session, c.bridgeId).1;
            && (out == Joined(i) <==>
                  && !s.r.closed && Serves(s, i, c.session) && i < |s.r.slots|
                  && s.r.slots[i].bridgeId == c.bridgeId)
            && (out == Created(|s.r.slots|, None) <==>
                  !s.r.closed && Unserved(s, c.session) && |s.r.table| < 64)
            && (out == Created(|s.r.slots|, Some(i)) <==>
                  && !s.r.closed
                  && ((Serves(s, i, c.session) && i < |s.r.slots| && s.r.slots[i].bridgeId != c.bridgeId
                       && !Occupied(s, i))
                      || (Unserved(s, c.session) && |s.r.table| == 64
                          && exists n: nat :: FirstVacant(s, n) && s.r.table[n].id == i)))
  {
    RunInv(states, steps, k);
    var s := states[k];
    JoinsExactly(s, s.calls[t].session, s.calls[t].bridgeId, i);
    OpensExactly(s, s.calls[t].session, s.calls[t].bridgeId);
    TakesPlaceExactly(s, s.calls[t].session, s.calls[t].bridgeId, i);
  }

  lemma JoinsExactly(s: Sys, session: string, bridgeId: string, i: nat)
    requires Inv(s)
    ensures Admit(s.r, session, bridgeId).1 == Joined(i) <==>
              !s.r.closed && Serves(s, i, session) && i < |s.r.slots| && s.r.slots[i].bridgeId == bridgeId
  {
    FindServes(s, session);
  }

  lemma OpensExactly(s: Sys, session: string, bridgeId: string)
    requires Inv(s)
    ensures Admit(s.r, session, bridgeId).1 == Created(|s.r.slots|, None) <==>
              !s.r.closed && Unserved(s, session) && |s.r.table| < 64
  {
    FindServes(s, session);
  }

  lemma TakesPlaceExactly(s: Sys, session: string, bridgeId: string, i: nat)
    requires Inv(s)
    ensures Admit(s.r, session, bridgeId).1 == Created(|s.r.slots|, Some(i)) <==>
              && !s.r.closed
              && ((Serves(s, i, session) && i < |s.r.slots| && s.r.slots[i].bridgeId != bridgeId && !Occupied(s, i))
                  || (Unserved(s, session) && |s.r.table| == 64
                      && exists n: nat :: FirstVacant(s, n) && s.r.table[n].id == i))
  {
    FindServes(s, session);
    if !s.r.closed && Unserved(s, session) && |s.r.table| == 64 {
      EvictsFirstVacant(s, session, bridgeId, i);
    } else if !s.r.closed && !Unserved(s, session) {
      RetiresOwn(s, session, bridgeId, i);
    }
  }

  lemma RetiresOwn(s: Sys, session: string, bridgeId: string, i: nat)
    requires Inv(s) && !s.r.closed && !Unserved(s, session)
    ensures Admit(s.r, session, bridgeId).1 == Created(|s.r.slots|, Some(i)) <==>
              Serves(s, i, session) && i < |s.r.slots| && s.r.slots[i].bridgeId != bridgeId && !Occupied(s, i)
  {
    FindServes(s, session);
    var id := Find(s.r.table, session).value;
    IdleExact(s, id);
    RemoveExact(s.r.table, session);
  }

  lemma EvictsFirstVacant(s: Sys, session: string, bridgeId: string, i: nat)
    requires Inv(s) && !s.r.closed && Unserved(s, session) && |s.r.table| == 64
    ensures Admit(s.r, session, bridgeId).1 == Created(|s.r.slots|, Some(i)) <==>
              exists n: nat :: FirstVacant(s, n) && s.r.table[n].id == i
  {
    FindServes(s, session);
    AllIdle(s);
    var e := FirstIdle(s.r, s.r.table);
    if e.Some? {
      var m :| 0 <= m < |s.r.table| && s.r.table[m] == e.value;
      FirstIdleIsFirst(s.r, s.r.table, m);
      assert FirstVacant(s, m);
      forall n: nat | FirstVacant(s, n) ensures n == m { }
    } else {
      forall n: nat ensures !FirstVacant(s, n) {
        if n < |s.r.table| { assert s.r.table[n] in s.r.table; }
      }
    }
  }

  /** The slot map after an admission: a joined slot has one more call; a new slot comes last, with
      its creator as its only call, and the retired one has left its place. */
  lemma MapsInOrder(states: seq<Sys>, steps: seq<Step>, k: nat, t: nat)
    requires IsRun(states, steps) && k < |steps| && steps[k] == Enter(t)
    ensures t in states[k].calls && InRange(states[k].r)
    ensures var s, s', c := states[k], states[k + 1], states[k].calls[t];
            var id := |s.r.slots|;
            match Admit(s.r, c.session, c.bridgeId).1
            case Refused(_) => s'.r == s.r
            case Joined(i) =>
              && i < |s.r.slots| && s'.calls[t] == c.(pc := Admitted, slot := i)
              && s'.r == s.r.(slots := s.r.slots[i := s.r.slots[i].(inFlight := s.r.slots[i].inFlight + 1)])
            case Created(added, retired) =>
              && added == id && s'.calls[t].slot == id
              && s'.calls[t].pc == (if retired.Some? then Retiring(retired.value) else Admitted)
              && s'.r.slots == s.r.slots + [Slot(c.session, c.bridgeId, 1, false, 0, false, None, false)]
              && s'.r.closed == s.r.closed
              && (if retired.None? then s'.r.table == s.r.table + [Entry(c.session, id)]
                  else exists n: nat :: n < |s.r.table| && s.r.table[n].id == retired.value
                                        && s'.r.table == s.r.table[..n] + s.r.table[n + 1..] + [Entry(c.session, id)])
  {
    var s := states[k];
    var c := s.calls[t];
    RunInv(states, steps, k);
    AdmitDecides(s.r, c.session, c.bridgeId);
    RemovesInPlace(s.r, c.session, c.bridgeId);
  }

  lemma {:induction false} Position(table: seq<Entry>, key: string) returns (n: nat)
    ensures n <= |table| && (forall j :: 0 <= j < n ==> table[j].key != key) && (n < |table| ==> table[n].key == key)
    ensures Remove(table, key) == Cut(table, n)
  {
    n := 0;
    if table != [] && table[0].key != key {
      var m := Position(table[1..], key);
      n := m + 1;
    }
    RemoveAt(table, key, n);
  }

  lemma RemovesInPlace(r: Router, session: string, bridgeId: string)
    requires TableOk(r)
    ensures var (r', out) := Admit(r, session, bridgeId);
            out.Created? ==>
              var last := [Entry(session, |r.slots|)];
              if out.retired.None? then r'.table == r.table + last
              else exists n: nat :: n < |r.table| && r.table[n].id == out.retired.value
                                    && r'.table == r.table[..n] + r.table[n + 1..] + last
  {
    FindInTable(r.table, session);
    var key := if Find(r.table, session).Some? then session
               else if FirstIdle(r, r.table).Some? then FirstIdle(r, r.table).value.key else session;
    var n := Position(r.table, key);
    RemoveExact(r.table, key);
    if n < |r.table| { assert r.table[n] in r.table; FindExact(r.table, key, r.table[n].id); }
    if FirstIdle(r, r.table).Some? {
      var e := FirstIdle(r, r.table).value;
      FindExact(r.table, e.key, e.id);
    }
  }
}
