/** The router and its slots as objects whose fields the critical sections update in place.
    Each method is one critical section, proved to do to `View()` what `RouterSpec` says. */
module Router {
  import opened Wrappers
  import S = RouterSpec

  class SessionSlot {
    const session: string
    const bridgeId: string
    var inFlight: int
    var recoveryChecked: bool
    var generation: int
    var active: bool
    var thread: Option<nat>
    var hasAdapter: bool
    ghost const id: nat  // position in the router's creation order

    function Record(): S.Slot
      reads this
    {
      S.Slot(session, bridgeId, inFlight, recoveryChecked, generation, active, thread, hasAdapter)
    }

    constructor (session: string, bridgeId: string, ghost id: nat)
      ensures this.session == session && this.id == id
      ensures Record() == S.Slot(session, bridgeId, 0, false, 0, false, None, false)
    {
      this.session, this.bridgeId, this.id := session, bridgeId, id;
      inFlight, recoveryChecked, generation, active, thread, hasAdapter := 0, false, 0, false, None, false;
    }

    /** The completion-lock section of `_maybe_start_headed_thin_completion`. */
    method RequestCompletion(isTaskStart: bool) returns (requested: bool)
      modifies this`recoveryChecked, this`generation
      ensures (Record(), requested) == S.Request(old(Record()), isTaskStart)
      ensures requested <==> isTaskStart || !old(recoveryChecked)
      ensures recoveryChecked && generation == old(generation) + if requested then 1 else 0
    {
      if !isTaskStart && recoveryChecked { return false; }
      recoveryChecked := true;
      generation := generation + 1;
      requested := true;
    }

    /** The completion-lock section of `_launch_headed_thin_completion`. */
    method Start(handoff: Option<nat>, worker: nat, starts: bool) returns (started: Option<int>)
      modifies this`active, this`thread
      ensures (Record(), started) == S.Start(old(Record()), handoff, worker, starts)
      ensures var free := !old(active) || (handoff.Some? && old(thread) == handoff);
              && (started.Some? <==> free && starts) && (started.Some? ==> started.value == old(generation))
              && active == (if free then starts else old(active))
              && thread == (if !free then old(thread) else if starts then Some(worker) else None)
    {
      if active && (handoff.None? || thread != handoff) { return None; }
      var captured := generation;
      active := true;
      thread := Some(worker);
      if starts {
        started := Some(captured);
      } else {
        active := false;
        thread := None;
        started := None;
      }
    }

    /** The start of `_execute_in_slot`, under the slot lock: check the route, then make sure
        the slot has its adapter. */
    method Enter(session: string, bridgeId: string) returns (ok: bool)
      modifies this`hasAdapter
      ensures ok <==> session == this.session && bridgeId == this.bridgeId
      ensures Record() == old(Record()).(hasAdapter := old(hasAdapter) || ok)
    {
      if session != this.session || bridgeId != this.bridgeId { return false; }
      if !hasAdapter { hasAdapter := true; }
      ok := true;
    }

    /** A worker that is still the slot's owner gives it up. */
    method Clear(worker: nat)
      modifies this`active, this`thread
      ensures Record() == S.Clear(old(Record()), worker)
      ensures if old(thread) == Some(worker) then !active && thread.None?
              else active == old(active) && thread == old(thread)
    {
      if thread == Some(worker) {
        active := false;
        thread := None;
      }
    }
  }

  ghost function Entries(table: seq<(string, SessionSlot)>): seq<S.Entry> {
    seq(|table|, k requires 0 <= k < |table| => S.Entry(table[k].0, table[k].1.id))
  }

  ghost function Ids(slots: seq<SessionSlot>): seq<nat> {
    seq(|slots|, k requires 0 <= k < |slots| => slots[k].id)
  }

  lemma CutEntries(table: seq<(string, SessionSlot)>, i: nat)
    requires i < |table|
    ensures Entries(table[..i] + table[i + 1..]) == Entries(table)[..i] + Entries(table)[i + 1..]
  {
  }

  class SessionScopedContextRouter {
    var closed: bool
    var table: seq<(string, SessionSlot)>
    ghost var created: seq<SessionSlot>

    ghost predicate Valid()
      reads this, created
    {
      && (forall i :: 0 <= i < |created| ==> created[i].id == i)
      && (forall k :: 0 <= k < |table| ==> table[k].1.id < |created| && created[table[k].1.id] == table[k].1)
      && S.TableOk(View())
    }

    ghost function View(): S.Router
      reads this, created
    {
      S.Router(closed, Entries(table),
               seq(|created|, i requires 0 <= i < |created| reads this, created => created[i].Record()))
    }

    constructor ()
      ensures Valid() && created == [] && View() == S.Router(false, [], [])
    {
      closed, table, created := false, [], [];
    }

    method IndexOf(key: string) returns (i: nat)
      ensures i <= |table| && (forall j :: 0 <= j < i ==> table[j].0 != key)
      ensures i < |table| ==> table[i].0 == key
    {
      i := 0;
      while i < |table| && table[i].0 != key
        invariant 0 <= i <= |table|
        invariant forall j :: 0 <= j < i ==> table[j].0 != key
      {
        i := i + 1;
      }
    }

    /** `dict.get`. */
    method Lookup(key: string) returns (slot: SessionSlot?)
      requires Valid()
      ensures slot == null <==> S.Find(View().table, key).None?
      ensures slot != null ==> slot.id < |created| && created[slot.id] == slot
                               && S.Find(View().table, key) == Some(slot.id)
    {
      var i := IndexOf(key);
      S.RemoveAt(View().table, key, i);
      slot := if i < |table| then table[i].1 else null;
    }

    /** `dict.pop`. */
    method Pop(key: string)
      requires Valid()
      modifies this`table
      ensures Valid() && View() == old(View()).(table := S.Remove(old(View()).table, key))
      ensures |table| <= old(|table|)
    {
      var i := IndexOf(key);
      S.RemoveExact(View().table, key);
      S.RemoveAt(View().table, key, i);
      if i < |table| {
        CutEntries(table, i);
        SetTable(table[..i] + table[i + 1..]);
      }
    }

    method SetTable(entries: seq<(string, SessionSlot)>)
      requires Valid()
      requires forall e :: e in entries ==> e in table
      requires S.TableOk(View().(table := Entries(entries)))
      modifies this`table
      ensures Valid() && table == entries && View() == old(View()).(table := Entries(entries))
    {
      forall k | 0 <= k < |entries|
        ensures entries[k].1.id < |created| && created[entries[k].1.id] == entries[k].1
      {
        assert entries[k] in table;
      }
      table := entries;
      assert View().slots == old(View()).slots;
    }

    /** The eviction scan: the first mapped slot with nobody in flight and no active completion. */
    method ScanIdle() returns (i: nat)
      requires Valid()
      ensures i <= |table| && forall k :: 0 <= k < i ==> table[k].1.inFlight != 0 || table[k].1.active
      ensures i < |table| ==> table[i].1.inFlight == 0 && !table[i].1.active
    {
      i := 0;
      while i < |table| && (table[i].1.inFlight != 0 || table[i].1.active)
        invariant 0 <= i <= |table|
        invariant forall k :: 0 <= k < i ==> table[k].1.inFlight != 0 || table[k].1.active
      {
        i := i + 1;
      }
    }

    method FindIdle() returns (entry: Option<(string, SessionSlot)>)
      requires Valid()
      ensures entry.None? <==> S.FirstIdle(View(), View().table).None?
      ensures entry.Some? ==> entry.value in table
      ensures entry.Some? ==> S.FirstIdle(View(), View().table) == Some(S.Entry(entry.value.0, entry.value.1.id))
    {
      var i := ScanIdle();
      forall k | 0 <= k < |table|
        ensures S.Idle(View(), table[k].1.id) <==> table[k].1.inFlight == 0 && !table[k].1.active
      {
        assert View().slots[table[k].1.id] == table[k].1.Record();
      }
      S.FirstIdleAt(View(), View().table, i);
      entry := if i < |table| then Some(table[i]) else None;
    }

    /** Unmaps the first idle slot of a full map, if there is one. */
    method Evict() returns (retired: SessionSlot?)
      requires Valid()
      modifies this`table
      ensures Valid()
      ensures match S.FirstIdle(old(View()), old(View()).table)
              case None => retired == null && View() == old(View())
              case Some(e) =>
                retired != null && retired.id == e.id && retired.id < |created| && created[retired.id] == retired
                && View() == old(View()).(table := S.Remove(old(View()).table, e.key))
    {
      var victim := FindIdle();
      if victim.None? { return null; }
      Pop(victim.value.0);
      retired := victim.value.1;
    }

    /** Maps a new slot that its creator already holds. */
    method Open(session: string, bridgeId: string) returns (slot: SessionSlot)
      requires Valid() && |table| < S.MAX_SLOTS && forall e :: e in View().table ==> e.key != session
      modifies this
      ensures Valid() && fresh(slot) && slot.id == |old(created)| && created == old(created) + [slot]
      ensures View() == S.Create(old(View()), session, bridgeId, None).0
    {
      S.CreateKeeps(View(), session, bridgeId, None);
      slot := new SessionSlot(session, bridgeId, |created|);
      slot.inFlight := 1;
      table := table + [(session, slot)];
      created := created + [slot];
      assert View() == S.Create(old(View()), session, bridgeId, None).0;
    }

    /** The caller joins its session's slot; it never waits for the slot's gate here. */
    method Join(slot: SessionSlot)
      requires Valid() && slot.id < |created| && created[slot.id] == slot
      modifies slot`inFlight
      ensures Valid() && View() == S.Raise(old(View()), slot.id)
    {
      slot.inFlight := slot.inFlight + 1;
      assert View() == S.Raise(old(View()), slot.id);
    }

    /** Makes room if the map is full, then maps a new slot. */
    method EvictAndOpen(session: string, bridgeId: string, stale: SessionSlot?)
      returns (slot: SessionSlot?, retired: SessionSlot?)
      requires Valid() && forall e :: e in View().table ==> e.key != session
      requires stale != null ==> |table| < S.MAX_SLOTS && stale.id < |created| && created[stale.id] == stale
      modifies this
      ensures Valid() && old(created) <= created && (forall k :: |old(created)| <= k < |created| ==> fresh(created[k]))
      ensures var staleId := if stale == null then None else Some(stale.id);
              var (r, out) := S.EvictAndCreate(old(View()), session, bridgeId, staleId);
              View() == r && Delivers(out, slot, retired)
    {
      slot, retired := null, stale;
      if |table| >= S.MAX_SLOTS {
        S.EvictKeeps(View(), session, bridgeId, None);
        retired := Evict();
        if retired == null { return; }
        ghost var table := old(View()).table;
        ghost var key := S.FirstIdle(old(View()), table).value.key;
        S.FindExact(table, key, retired.id);
        S.RemoveExact(table, key);
      }
      slot := Open(session, bridgeId);
    }

    /** The objects an admission hands back are the ones its outcome names. */
    ghost predicate Delivers(out: S.Outcome, slot: SessionSlot?, retired: SessionSlot?)
      reads this
    {
      && (slot != null ==> slot.id < |created| && created[slot.id] == slot)
      && (retired != null ==> retired.id < |created| && created[retired.id] == retired)
      && match out
         case Refused(_) => slot == null && retired == null
         case Joined(id) => slot != null && slot.id == id && retired == null
         case Created(id, r) =>
           slot != null && slot.id == id && (r.None? <==> retired == null)
           && (r.Some? ==> retired != null && retired.id == r.value)
    }

    /** The router-lock section of `_slot`. */
    method Admit(session: string, bridgeId: string)
      returns (slot: SessionSlot?, retired: SessionSlot?, code: Option<S.Code>)
      requires Valid()
      modifies this, created
      ensures Valid() && old(created) <= created && (forall k :: |old(created)| <= k < |created| ==> fresh(created[k]))
      ensures var (r, out) := S.Admit(old(View()), session, bridgeId);
              View() == r && Delivers(out, slot, retired)
              && code == if out.Refused? then Some(out.code) else None
    {
      S.FindInTable(View().table, session);
      if closed { return null, null, Some(S.BridgeUnavailable); }
      var existing := Lookup(session);
      var stale: SessionSlot? := null;
      if existing != null {
        assert View().slots[existing.id] == existing.Record();
        if existing.bridgeId == bridgeId {
          Join(existing);
          return existing, null, None;
        }
        if existing.inFlight != 0 || existing.active { return null, null, Some(S.TokenEpochStale); }
        S.RemoveExact(View().table, session);
        Pop(session);
        stale := existing;
      }
      slot, retired := EvictAndOpen(session, bridgeId, stale);
      code := if slot == null then Some(S.CapacityExceeded) else None;
    }

    /** `_release_slot`. */
    method Release(slot: SessionSlot)
      requires Valid() && slot.id < |created| && created[slot.id] == slot
      modifies slot`inFlight
      ensures Valid() && View() == S.Release(old(View()), slot.id)
    {
      slot.inFlight := slot.inFlight - 1;
      assert View() == S.Release(old(View()), slot.id);
    }

    /** The router-lock section of `_launch_headed_thin_completion`. */
    method LaunchRefused(slot: SessionSlot) returns (refused: bool)
      requires Valid() && slot.id < |created| && created[slot.id] == slot
      ensures refused == S.LaunchRefused(View(), slot.id)
      ensures refused <==> closed || forall k :: 0 <= k < |table| ==> table[k].1 != slot
    {
      if closed { return true; }
      var mapped := Lookup(slot.session);
      assert View().slots[slot.id] == slot.Record();
      S.FindExact(View().table, slot.session, slot.id);
      forall k | 0 <= k < |table| && table[k].1 == slot ensures S.Entry(slot.session, slot.id) in View().table {
        assert View().table[k] == S.Entry(table[k].0, slot.id);
      }
      refused := mapped != slot;
      if !refused {
        ghost var k :| 0 <= k < |View().table| && View().table[k] == S.Entry(slot.session, slot.id);
        assert table[k].1 == created[slot.id];
      }
    }

    /** The end of a worker's cycle, under both locks. */
    method Finish(slot: SessionSlot, worker: nat, generation: int, stillActive: bool) returns (rearm: bool)
      requires Valid() && slot.id < |created| && created[slot.id] == slot
      modifies slot`active, slot`thread
      ensures Valid()
      ensures var (s, again) := S.Finish(old(View()), slot.id, worker, generation, stillActive);
              rearm == again && View() == old(View()).(slots := old(View()).slots[slot.id := s])
      ensures rearm <==> (slot.generation != generation || stillActive)
                         && !closed && exists k :: 0 <= k < |table| && table[k].1 == slot
    {
      assert View().slots[slot.id] == slot.Record();
      var shouldRearm := slot.generation != generation || stillActive;
      var refused := LaunchRefused(slot);
      rearm := shouldRearm && !refused;
      if !rearm { slot.Clear(worker); }
      ghost var s := S.Finish(old(View()), slot.id, worker, generation, stillActive).0;
      assert View().slots == old(View()).slots[slot.id := s];
    }

    /** `close()` before it drains: nothing is admitted from here on. */
    method Shut() returns (slots: seq<SessionSlot>)
      requires Valid()
      modifies this`closed, this`table
      ensures Valid()
      ensures (View(), Ids(slots)) == S.Shut(old(View()))
      ensures closed && table == [] && |slots| == |old(table)|
      ensures forall k :: 0 <= k < |slots| ==> slots[k] == old(table)[k].1
      ensures forall k :: 0 <= k < |slots| ==> slots[k].id < |created| && created[slots[k].id] == slots[k]
    {
      closed := true;
      var entries := table;
      slots := seq(|entries|, k requires 0 <= k < |entries| => entries[k].1);
      table := [];
      assert Ids(slots) == S.Shut(old(View())).1;
      assert View().slots == old(View()).slots && View().table == [];
    }
  }
}
