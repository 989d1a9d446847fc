/** What each critical section of `SessionScopedContextRouter` does to the router's state.
    A slot is named by its creation number; the slot map keeps the insertion order that
    eviction scans it in. */
module RouterSpec {
  import opened Wrappers

  const MAX_SLOTS := 64

  datatype Slot = Slot(
    session: string, bridgeId: string,
    inFlight: int,             // guarded by the router lock
    recoveryChecked: bool, generation: int, active: bool, thread: Option<nat>,  // guarded by completion_lock
    hasAdapter: bool)          // guarded by the slot lock

  datatype Entry = Entry(key: string, id: nat)

  datatype Router = Router(closed: bool, table: seq<Entry>, slots: seq<Slot>)

  datatype Code = BridgeUnavailable | TokenEpochStale | CapacityExceeded

  /** What an admission decides under the router lock. */
  datatype Outcome =
    | Refused(code: Code)
    | Joined(id: nat)
    | Created(id: nat, retired: Option<nat>)

  // ---------- the slot map ----------

  predicate InRange(r: Router) { forall e :: e in r.table ==> e.id < |r.slots| }

  ghost predicate Keyed(table: seq<Entry>) {
    forall j, k :: 0 <= j < k < |table| ==> table[j].key != table[k].key
  }

  /** At most 64 slots, each under its own session's key, one per session. */
  ghost predicate TableOk(r: Router) {
    && InRange(r) && |r.table| <= MAX_SLOTS && Keyed(r.table)
    && (forall e :: e in r.table ==> e.key == r.slots[e.id].session)
  }

  function Find(table: seq<Entry>, key: string): Option<nat> {
    if table == [] then None
    else if table[0].key == key then Some(table[0].id)
    else Find(table[1..], key)
  }

  /** `dict.pop(key, None)`. */
  function Remove(table: seq<Entry>, key: string): (r: seq<Entry>)
    ensures |r| <= |table|
  {
    if table == [] then []
    else if table[0].key == key then table[1..]
    else [table[0]] + Remove(table[1..], key)
  }

  predicate Busy(r: Router, id: nat)
    requires id < |r.slots|
  {
    r.slots[id].inFlight != 0 || r.slots[id].active
  }

  /** The first entry, in insertion order, whose slot is idle. */
  function FirstIdle(r: Router, table: seq<Entry>): (found: Option<Entry>)
    requires forall e :: e in table ==> e.id < |r.slots|
    ensures found.Some? ==> found.value in table && !Busy(r, found.value.id)
    ensures found.None? ==> forall e :: e in table ==> Busy(r, e.id)
  {
    if table == [] then None
    else if !Busy(r, table[0].id) then Some(table[0])
    else FirstIdle(r, table[1..])
  }

  predicate Mapped(r: Router, id: nat)
    requires id < |r.slots|
  {
    Find(r.table, r.slots[id].session) == Some(id)
  }

  // ---------- admission (`_slot`, under the router lock) ----------

  function Raise(r: Router, id: nat): Router
    requires id < |r.slots|
  {
    r.(slots := r.slots[id := r.slots[id].(inFlight := r.slots[id].inFlight + 1)])
  }

  function Create(r: Router, session: string, bridgeId: string, retired: Option<nat>): (Router, Outcome) {
    var id := |r.slots|;
    var slot := Slot(session, bridgeId, 1, false, 0, false, None, false);
    (r.(table := r.table + [Entry(session, id)], slots := r.slots + [slot]), Created(id, retired))
  }

  /** Makes room if the map is full, then creates the slot. */
  function EvictAndCreate(r: Router, session: string, bridgeId: string, retired: Option<nat>): (Router, Outcome)
    requires InRange(r)
  {
    if |r.table| < MAX_SLOTS then Create(r, session, bridgeId, retired)
    else
      match FirstIdle(r, r.table)
      case None => (r, Refused(CapacityExceeded))
      case Some(e) => Create(r.(table := Remove(r.table, e.key)), session, bridgeId, Some(e.id))
  }

  function Admit(r: Router, session: string, bridgeId: string): (Router, Outcome)
    requires InRange(r)
  {
    if r.closed then (r, Refused(BridgeUnavailable))
    else
      match Find(r.table, session)
      case None => EvictAndCreate(r, session, bridgeId, None)
      case Some(id) =>
        FindInTable(r.table, session);
        if r.slots[id].bridgeId == bridgeId then (Raise(r, id), Joined(id))
        else if Busy(r, id) then (r, Refused(TokenEpochStale))
        else
          RemoveKeeps(r.table, session);
          EvictAndCreate(r.(table := Remove(r.table, session)), session, bridgeId, Some(id))
  }

  // ---------- the other sections ----------

  function Release(r: Router, id: nat): Router
    requires id < |r.slots|
  {
    r.(slots := r.slots[id := r.slots[id].(inFlight := r.slots[id].inFlight - 1)])
  }

  /** `_maybe_start_headed_thin_completion` under completion_lock: the slot, and whether a
      completion pass was requested. */
  function Request(s: Slot, isTaskStart: bool): (Slot, bool) {
    if !isTaskStart && s.recoveryChecked then (s, false)
    else (s.(recoveryChecked := true, generation := s.generation + 1), true)
  }

  predicate LaunchRefused(r: Router, id: nat)
    requires id < |r.slots|
  {
    r.closed || !Mapped(r, id)
  }

  /** `_launch_headed_thin_completion` under completion_lock.  The second result is the
      generation handed to the new worker, if one was started. */
  function Start(s: Slot, handoff: Option<nat>, worker: nat, starts: bool): (Slot, Option<int>) {
    if s.active && (handoff.None? || s.thread != handoff) then (s, None)
    else if starts then (s.(active := true, thread := Some(worker)), Some(s.generation))
    else (s.(active := false, thread := None), None)
  }

  function Clear(s: Slot, worker: nat): Slot {
    if s.thread == Some(worker) then s.(active := false, thread := None) else s
  }

  /** The end of a worker's cycle, under both locks: the slot, and whether it re-arms. */
  function Finish(r: Router, id: nat, worker: nat, generation: int, stillActive: bool): (Slot, bool)
    requires id < |r.slots|
  {
    var s := r.slots[id];
    var shouldRearm := s.generation != generation || stillActive;
    if shouldRearm && !LaunchRefused(r, id) then (s, true) else (Clear(s, worker), false)
  }

  /** `close()` under the router lock: the ids it will drain and then close. */
  function Shut(r: Router): (Router, seq<nat>) {
    (r.(closed := true, table := []), seq(|r.table|, k requires 0 <= k < |r.table| => r.table[k].id))
  }

  // ---------- lemmas about the map ----------

  lemma {:induction false} FindInTable(table: seq<Entry>, key: string)
    ensures Find(table, key).Some? ==> Entry(key, Find(table, key).value) in table
    ensures Find(table, key).None? ==> forall k :: 0 <= k < |table| ==> table[k].key != key
  {
    if table != [] { FindInTable(table[1..], key); }
  }

  /** With distinct keys, looking a key up finds the one entry that has it. */
  lemma {:induction false} FindExact(table: seq<Entry>, key: string, id: nat)
    requires Keyed(table)
    ensures Find(table, key) == Some(id) <==> Entry(key, id) in table
  {
    if table != [] {
      FindExact(table[1..], key, id);
      assert table == [table[0]] + table[1..];
      forall e | e in table[1..] ensures e.key != table[0].key {
        var k :| 0 <= k < |table[1..]| && table[1..][k] == e;
        assert table[k + 1] == e;
      }
    }
  }

  lemma {:induction false} RemoveKeeps(table: seq<Entry>, key: string)
    ensures forall e :: e in Remove(table, key) ==> e in table
    ensures forall e :: e in table && e.key != key ==> e in Remove(table, key)
  {
    if table != [] {
      RemoveKeeps(table[1..], key);
      assert table == [table[0]] + table[1..];
    }
  }

  lemma {:induction false} RemoveExact(table: seq<Entry>, key: string)
    requires Keyed(table)
    ensures Keyed(Remove(table, key))
    ensures forall e :: e in Remove(table, key) <==> e in table && e.key != key
    ensures |Remove(table, key)| == |table| - if Find(table, key).Some? then 1 else 0
  {
    if table != [] {
      RemoveExact(table[1..], key);
      assert table == [table[0]] + table[1..];
      FindInTable(table[1..], key);
      if table[0].key != key {
        var r := Remove(table[1..], key);
        forall j, k | 0 <= j < k < |[table[0]] + r|
          ensures ([table[0]] + r)[j].key != ([table[0]] + r)[k].key
        {
          if j == 0 {
            assert r[k - 1] in r;
            var m :| 0 <= m < |table[1..]| && table[1..][m] == r[k - 1];
            assert table[m + 1] == r[k - 1];
          }
        }
      } else {
        forall e | e in table[1..] ensures e.key != key {
          var m :| 0 <= m < |table[1..]| && table[1..][m] == e;
          assert table[m + 1] == e;
        }
      }
    }
  }

  /** `Find` and `Remove` act on the first entry with the key. */
  lemma {:induction false} RemoveAt(table: seq<Entry>, key: string, i: nat)
    requires i <= |table| && forall j :: 0 <= j < i ==> table[j].key != key
    requires i < |table| ==> table[i].key == key
    ensures Remove(table, key) == Cut(table, i)
    ensures Find(table, key) == if i < |table| then Some(table[i].id) else None
  {
    if table != [] && i > 0 {
      RemoveAt(table[1..], key, i - 1);
      CutRest(table, i);
    }
  }

  /** The table without its entry at `i`. */
  function Cut(table: seq<Entry>, i: nat): seq<Entry> {
    if i < |table| then table[..i] + table[i + 1..] else table
  }

  lemma CutRest(table: seq<Entry>, i: nat)
    requires table != [] && i > 0
    ensures [table[0]] + Cut(table[1..], i - 1) == Cut(table, i)
  {
  }

  // ---------- what admission guarantees ----------

  /** Slot `id` is the caller's own: its session, its epoch, and in the map. */
  ghost predicate Owns(r: Router, id: nat, session: string, bridgeId: string) {
    && id < |r.slots| && r.slots[id].session == session && r.slots[id].bridgeId == bridgeId
    && Entry(session, id) in r.table
  }

  /** Nobody is in flight in slot `id` and no completion of it is active. */
  ghost predicate Idle(r: Router, id: nat)
    requires id < |r.slots|
  {
    r.slots[id].inFlight == 0 && !r.slots[id].active
  }

  /** Slot `id` was mapped and idle in `r` and is unmapped in `r'`. */
  ghost predicate Retires(r: Router, r': Router, id: nat) {
    && id < |r.slots| && Entry(r.slots[id].session, id) in r.table && Idle(r, id)
    && Entry(r.slots[id].session, id) !in r'.table
  }

  /** `r'` has the new slot `id` and otherwise the slots of `r`, less the retired one. */
  ghost predicate Opens(r: Router, r': Router, session: string, bridgeId: string, id: nat, retired: Option<nat>) {
    && id == |r.slots| && r'.slots == r.slots + [Slot(session, bridgeId, 1, false, 0, false, None, false)]
    && r'.closed == r.closed
    && (forall e :: e in r'.table <==> e == Entry(session, id) || (e in r.table && Some(e.id) != retired))
    && (retired.Some? ==> Retires(r, r', retired.value))
  }

  /** `r'` is `r` with one more mapped slot. */
  ghost predicate Extends(r: Router, r': Router, session: string, bridgeId: string) {
    && r'.slots == r.slots + [Slot(session, bridgeId, 1, false, 0, false, None, false)] && r'.closed == r.closed
    && (forall e :: e in r'.table <==> e == Entry(session, |r.slots|) || e in r.table)
  }

  lemma CreateKeeps(r: Router, session: string, bridgeId: string, retired: Option<nat>)
    requires TableOk(r) && |r.table| < MAX_SLOTS && forall e :: e in r.table ==> e.key != session
    ensures var r' := Create(r, session, bridgeId, retired).0;
            TableOk(r') && forall e :: e in r'.table <==> e == Entry(session, |r.slots|) || e in r.table
  {
    var r' := Create(r, session, bridgeId, retired).0;
    forall j, k | 0 <= j < k < |r'.table| ensures r'.table[j].key != r'.table[k].key {
      assert r'.table[j] in r.table;
    }
  }

  lemma EvictKeeps(r: Router, session: string, bridgeId: string, retired: Option<nat>)
    requires TableOk(r) && forall e :: e in r.table ==> e.key != session
    requires retired.Some? ==> |r.table| < MAX_SLOTS
    ensures var (r', out) := EvictAndCreate(r, session, bridgeId, retired);
            TableOk(r')
            && (out.Refused? <==> |r.table| == MAX_SLOTS && forall e :: e in r.table ==> !Idle(r, e.id))
            && (out.Refused? ==> r' == r && out.code == CapacityExceeded)
            && (!out.Refused? ==> out.Created? && out.id == |r.slots|)
            && (!out.Refused? && retired.Some? ==> Extends(r, r', session, bridgeId) && out.retired == retired)
            && (!out.Refused? && retired.None? ==> Opens(r, r', session, bridgeId, out.id, out.retired))
  {
    if |r.table| < MAX_SLOTS {
      CreateKeeps(r, session, bridgeId, retired);
    } else if FirstIdle(r, r.table).Some? {
      var e := FirstIdle(r, r.table).value;
      FindExact(r.table, e.key, e.id);
      RemoveExact(r.table, e.key);
      OnlyEntryOf(r, e);
      CreateKeeps(r.(table := Remove(r.table, e.key)), session, bridgeId, Some(e.id));
    }
  }

  /** An id has at most one entry. */
  lemma OnlyEntryOf(r: Router, e: Entry)
    requires TableOk(r) && e in r.table
    ensures forall f :: f in r.table && (f.id == e.id || f.key == e.key) ==> f == e
  {
    forall f | f in r.table && (f.id == e.id || f.key == e.key) ensures f == e {
      assert f.key == e.key;
      FindExact(r.table, e.key, e.id);
      FindExact(r.table, f.key, f.id);
    }
  }

  ghost predicate CapacityFull(r: Router, session: string)
    requires InRange(r)
  {
    Find(r.table, session).None? && |r.table| == 64 && forall e :: e in r.table ==> !Idle(r, e.id)
  }

  ghost predicate EpochBusy(r: Router, session: string, bridgeId: string)
    requires InRange(r)
  {
    Find(r.table, session).Some? && (FindInTable(r.table, session);
      var id := Find(r.table, session).value; r.slots[id].bridgeId != bridgeId && !Idle(r, id))
  }

  /** Exactly when an admission is refused and with which code, and what an admission that is
      not refused does: it hands out a slot of the caller's own session and epoch, raises only
      that slot's in-flight count, and unmaps at most one slot, which was idle. */
  lemma AdmitDecides(r: Router, session: string, bridgeId: string)
    requires TableOk(r)
    ensures var (r', out) := Admit(r, session, bridgeId);
            && TableOk(r')
            && (out == Refused(BridgeUnavailable) <==> r.closed)
            && (out == Refused(TokenEpochStale) <==> !r.closed && EpochBusy(r, session, bridgeId))
            && (out == Refused(CapacityExceeded) <==> !r.closed && CapacityFull(r, session))
            && (out.Refused? ==> r' == r)
            && (out.Joined? ==> Owns(r, out.id, session, bridgeId) && r' == Raise(r, out.id))
            && (out.Created? ==> Opens(r, r', session, bridgeId, out.id, out.retired))
  {
    if !r.closed {
      FindInTable(r.table, session);
      match Find(r.table, session)
      case None => EvictKeeps(r, session, bridgeId, None);
      case Some(id) =>
        if r.slots[id].bridgeId == bridgeId {
          RaiseKeeps(r, id);
        } else if !Busy(r, id) {
          var e := Entry(session, id);
          RemoveExact(r.table, session);
          OnlyEntryOf(r, e);
          EvictKeeps(r.(table := Remove(r.table, session)), session, bridgeId, Some(id));
        }
    }
  }

  lemma RaiseKeeps(r: Router, id: nat)
    requires TableOk(r) && id < |r.slots|
    ensures TableOk(Raise(r, id))
  {
  }

  lemma {:induction false} FirstIdleIsFirst(r: Router, table: seq<Entry>, k: nat)
    requires (forall e :: e in table ==> e.id < |r.slots|) && Keyed(table)
    requires k < |table| && FirstIdle(r, table) == Some(table[k])
    ensures Idle(r, table[k].id) && forall j :: 0 <= j < k ==> !Idle(r, table[j].id)
  {
    if Busy(r, table[0].id) && k > 0 { FirstIdleIsFirst(r, table[1..], k - 1); }
  }

  lemma {:induction false} FirstIdleAt(r: Router, table: seq<Entry>, i: nat)
    requires forall e :: e in table ==> e.id < |r.slots|
    requires i <= |table| && forall j :: 0 <= j < i ==> !Idle(r, table[j].id)
    requires i < |table| ==> Idle(r, table[i].id)
    ensures FirstIdle(r, table) == if i < |table| then Some(table[i]) else None
  {
    if table != [] && i > 0 { FirstIdleAt(r, table[1..], i - 1); }
  }

  /** A full map evicts the idle slot that was inserted first. */
  lemma EvictsOldestIdle(r: Router, session: string, bridgeId: string, k: nat)
    requires TableOk(r) && !r.closed && Find(r.table, session).None? && |r.table| == 64 && k < 64
    ensures var out := Admit(r, session, bridgeId).1;
            out.Created? ==>
              (out.retired == Some(r.table[k].id)
               <==> Idle(r, r.table[k].id) && forall j :: 0 <= j < k ==> !Idle(r, r.table[j].id))
  {
    var e := FirstIdle(r, r.table);
    if e.Some? {
      var m :| 0 <= m < |r.table| && r.table[m] == e.value;
      FirstIdleIsFirst(r, r.table, m);
      OnlyEntryOf(r, e.value);
      assert r.table[k] in r.table;
    }
  }
}
