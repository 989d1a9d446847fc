/** The locks, the session gates, the worker tokens and the event loop that the router's threads
    wait for, and the order they are taken in. */
module LockOrder {
  import opened Wrappers

  // ---------- what threads hold and do ----------

  /** `InFlight` is the count a closer waits out; `Gate` a session's asyncio lock; `Token` one of
      the limiter's two; `Loop` the event loop's one thread; `Exec` a slot's execution lock. */
  datatype Res = InFlight(i: nat) | Gate(i: nat) | Token | Loop | Exec(i: nat) | Router | Completion(i: nat)

  function Rank(r: Res): nat {
    match r
    case InFlight(_) => 0
    case Gate(_) => 1
    case Token => 2
    case Loop => 3
    case Exec(_) => 4
    case Router => 5
    case Completion(_) => 6
  }

  const TOKENS := 2

  /** `Join` takes the event loop for lifespan teardown; `Await` waits until none of the slots
      has a call in flight, with the router lock let go. */
  datatype Op = Acquire(r: Res) | Release(r: Res) | Mark(i: nat) | Unmark(i: nat) | Join | Await(slots: set<nat>)

  datatype Prog = Done | Then(op: Op, rest: Prog)

  datatype Kind = Plain | Async | LoopCloser

  /** What a thread holds: at most one resource of each rank, the reentrant router lock any
      number of times. */
  datatype Held = Held(
    mark: Option<nat>, gate: Option<nat>, token: bool, loop: bool, exec: Option<nat>, router: nat,
    completion: Option<nat>)

  const NOTHING := Held(None, None, false, false, None, 0, None)

  datatype Thread = Thread(kind: Kind, held: Held, prog: Prog)

  predicate Has(h: Held, r: Res) {
    match r
    case InFlight(i) => h.mark == Some(i)
    case Gate(i) => h.gate == Some(i)
    case Token => h.token
    case Loop => h.loop
    case Exec(i) => h.exec == Some(i)
    case Router => h.router > 0
    case Completion(i) => h.completion == Some(i)
  }

  /** One more than the highest rank held. */
  function Top(h: Held): nat {
    if h.completion.Some? then 7 else if h.router > 0 then 6 else if h.exec.Some? then 5
    else if h.loop then 4 else if h.token then 3 else if h.gate.Some? then 2 else if h.mark.Some? then 1 else 0
  }

  function Plus(h: Held, r: Res): Held {
    match r
    case InFlight(i) => h.(mark := Some(i))
    case Gate(i) => h.(gate := Some(i))
    case Token => h.(token := true)
    case Loop => h.(loop := true)
    case Exec(i) => h.(exec := Some(i))
    case Router => h.(router := h.router + 1)
    case Completion(i) => h.(completion := Some(i))
  }

  function Minus(h: Held, r: Res): Held {
    match r
    case InFlight(_) => h.(mark := None)
    case Gate(_) => h.(gate := None)
    case Token => h.(token := false)
    case Loop => h.(loop := false)
    case Exec(_) => h.(exec := None)
    case Router => h.(router := if h.router > 0 then h.router - 1 else 0)
    case Completion(_) => h.(completion := None)
  }

  // ---------- the discipline ----------

  /** Which operation a thread of this kind may do while holding `h`. */
  predicate Permitted(kind: Kind, h: Held, op: Op) {
    match op
    case Acquire(r) =>
      && (Top(h) <= Rank(r) || (r == Router && h.router > 0)) && !r.InFlight?
      && (!kind.Async? ==> Rank(r) > Rank(Loop))
    case Release(r) => Has(h, r) && !r.InFlight?
    case Mark(_) => h.mark.None? && (kind.Plain? || (kind.Async? && h.loop))
    case Unmark(i) => h.mark == Some(i) && (kind.Async? ==> h.loop)
    case Join => kind.LoopCloser? && h == NOTHING
    case Await(_) => (kind.Plain? && h == NOTHING) || (kind.LoopCloser? && h == NOTHING.(loop := true))
  }

  function After(h: Held, op: Op): Held {
    match op
    case Acquire(r) => Plus(h, r)
    case Release(r) => Minus(h, r)
    case Mark(i) => h.(mark := Some(i))
    case Unmark(_) => h.(mark := None)
    case Join => h.(loop := true)
    case Await(_) => h
  }

  /** The slots the program waits for next. */
  function Awaited(p: Prog): set<nat> {
    match p
    case Done => {}
    case Then(op, rest) => if op.Await? then op.slots else Awaited(rest)
  }

  /** The program waits for slots before it lets the event loop go. */
  predicate Pending(p: Prog) { p.Then? && (p.op.Await? || (p.op != Release(Loop) && Pending(p.rest))) }

  predicate Disciplined(kind: Kind, h: Held, p: Prog)
    decreases p
  {
    match p
    case Done => h == NOTHING
    case Then(op, rest) =>
      && Permitted(kind, h, op) && (op.Join? ==> Pending(rest)) && (op.Await? ==> !Pending(rest))
      && Disciplined(kind, After(h, op), rest)
  }

  // ---------- the programs ----------

  function Hold(r: Res, k: Prog): Prog { Then(Acquire(r), Then(Release(r), k)) }

  /** The eviction scan looks at completion locks one after another. */
  function Peeks(scan: seq<nat>, k: Prog): Prog {
    if scan == [] then k else Hold(Completion(scan[0]), Peeks(scan[1..], k))
  }

  function Execs(todo: seq<nat>, k: Prog): Prog {
    if todo == [] then k else Hold(Exec(todo[0]), Execs(todo[1..], k))
  }

  /** `_slot`, for a call that is admitted to slot `i` or to none. */
  function Admission(scan: seq<nat>, i: Option<nat>, k: Prog): Prog {
    var out := Then(Release(Router), k);
    Then(Acquire(Router), Peeks(scan, if i.Some? then Then(Mark(i.value), out) else out))
  }

  function Leave(i: nat, k: Prog): Prog { Then(Acquire(Router), Then(Unmark(i), Then(Release(Router), k))) }

  /** How far a call gets once its operation has run. */
  datatype Reach = NoRequest | Requested | LaunchRefused | Launched

  function Wakes(i: nat, reach: Reach, k: Prog): Prog {
    match reach
    case NoRequest => k
    case Requested => Hold(Completion(i), k)
    case LaunchRefused => Hold(Completion(i), Hold(Router, k))
    case Launched => Hold(Completion(i), Hold(Router, Hold(Completion(i), k)))
  }

  datatype Fate = Unverified | NotAdmitted | Abandoned(i: nat) | Runs(i: nat, reach: Reach)

  /** `invoke`. */
  function SyncCall(scan: seq<nat>, fate: Fate): Prog {
    Hold(Router,
      match fate
      case Unverified => Done
      case NotAdmitted => Admission(scan, None, Done)
      case Abandoned(i) => Admission(scan, Some(i), Leave(i, Done))
      case Runs(i, reach) => Admission(scan, Some(i), Hold(Exec(i), Wakes(i, reach, Leave(i, Done)))))
  }

  /** `invoke_async`: it runs on the event loop except where it waits, and its verification and
      its operation run on worker threads under a token. */
  function AsyncCall(scan: seq<nat>, fate: Fate): Prog {
    Hold(Loop, Then(Acquire(Token), Hold(Router, Then(Acquire(Loop), Then(Release(Token), Selected(scan, fate))))))
  }

  function Selected(scan: seq<nat>, fate: Fate): Prog {
    match fate
    case Unverified => Then(Release(Loop), Done)
    case NotAdmitted => Admission(scan, None, Then(Release(Loop), Done))
    case Abandoned(i) => Admission(scan, Some(i), Leave(i, Then(Release(Loop), Done)))
    case Runs(i, reach) => Admission(scan, Some(i), Then(Release(Loop), Gated(i, reach)))
  }

  function Gated(i: nat, reach: Reach): Prog { Then(Acquire(Gate(i)), Hold(Loop, Offloaded(i, reach))) }

  function Offloaded(i: nat, reach: Reach): Prog {
    Then(Acquire(Token), Hold(Exec(i), Then(Acquire(Loop), Then(Release(Token), Finished(i, reach)))))
  }

  function Finished(i: nat, reach: Reach): Prog {
    Wakes(i, reach, Then(Release(Gate(i)), Leave(i, Then(Release(Loop), Done))))
  }

  /** A completion worker at the end of its cycle; `rearm` says whether its re-arm is refused. */
  function Worker(i: nat, rearm: Option<bool>): Prog {
    var out := Then(Release(Router), Done);
    Then(Acquire(Router), Hold(Completion(i),
      match rearm
      case None => out
      case Some(refused) =>
        Then(Acquire(Router),
          if refused then Hold(Completion(i), Then(Release(Router), out))
          else Then(Release(Router), Hold(Completion(i), out)))))
  }

  /** `close()`. */
  function CloseAll(todo: seq<nat>, k: Prog): Prog {
    Hold(Router, Then(Await(set i | i in todo), Hold(Router, Execs(todo, k))))
  }

  /** Everything the router runs: calls, workers, and `close()` from a thread of its own or from
      the server's lifespan teardown, which runs on the event loop. */
  datatype Shape =
    | Sync(scan: seq<nat>, fate: Fate)
    | AsyncShape(scan: seq<nat>, fate: Fate)
    | Completing(i: nat, rearm: Option<bool>)
    | Closer(todo: seq<nat>)
    | Teardown(todo: seq<nat>)

  function ThreadOf(shape: Shape): Thread {
    match shape
    case Sync(scan, fate) => Thread(Plain, NOTHING, SyncCall(scan, fate))
    case AsyncShape(scan, fate) => Thread(Async, NOTHING, AsyncCall(scan, fate))
    case Completing(i, rearm) => Thread(Plain, NOTHING, Worker(i, rearm))
    case Closer(todo) => Thread(Plain, NOTHING, CloseAll(todo, Done))
    case Teardown(todo) => Thread(LoopCloser, NOTHING, Then(Join, CloseAll(todo, Then(Release(Loop), Done))))
  }

  // ---------- every program keeps the discipline ----------

  lemma HoldOk(kind: Kind, h: Held, r: Res, k: Prog)
    requires Permitted(kind, h, Acquire(r)) && Disciplined(kind, h, k) && (r == Router || Top(h) <= Rank(r))
    ensures Disciplined(kind, h, Hold(r, k))
  {
    assert Minus(Plus(h, r), r) == h;
    assert Disciplined(kind, Plus(h, r), Then(Release(r), k));
  }

  lemma {:induction false} PeeksOk(kind: Kind, h: Held, scan: seq<nat>, k: Prog)
    requires Top(h) <= Rank(Completion(0)) && Disciplined(kind, h, k)
    ensures Disciplined(kind, h, Peeks(scan, k))
  {
    if scan != [] {
      PeeksOk(kind, h, scan[1..], k);
      HoldOk(kind, h, Completion(scan[0]), Peeks(scan[1..], k));
    }
  }

  lemma {:induction false} ExecsOk(kind: Kind, h: Held, todo: seq<nat>, k: Prog)
    requires Top(h) <= Rank(Exec(0)) && Disciplined(kind, h, k)
    ensures Disciplined(kind, h, Execs(todo, k))
  {
    if todo != [] {
      ExecsOk(kind, h, todo[1..], k);
      HoldOk(kind, h, Exec(todo[0]), Execs(todo[1..], k));
    }
  }

  lemma AdmissionOk(kind: Kind, h: Held, scan: seq<nat>, i: Option<nat>, k: Prog)
    requires Top(h) <= Rank(Router) && h.mark.None? && (kind.Plain? || (kind.Async? && h.loop))
    requires Disciplined(kind, if i.Some? then h.(mark := i) else h, k)
    ensures Disciplined(kind, h, Admission(scan, i, k))
  {
    var inside := Plus(h, Router);
    var out := Then(Release(Router), k);
    if i.Some? {
      assert Disciplined(kind, inside.(mark := i), out);
      PeeksOk(kind, inside, scan, Then(Mark(i.value), out));
    } else {
      PeeksOk(kind, inside, scan, out);
    }
  }

  lemma LeaveOk(kind: Kind, h: Held, i: nat, k: Prog)
    requires Top(h) <= Rank(Router) && h.mark == Some(i) && (kind.Async? ==> h.loop)
    requires Disciplined(kind, h.(mark := None), k)
    ensures Disciplined(kind, h, Leave(i, k))
  {
    var inside := Plus(h, Router);
    assert Disciplined(kind, inside.(mark := None), Then(Release(Router), k));
    assert Disciplined(kind, inside, Then(Unmark(i), Then(Release(Router), k)));
  }

  lemma WakesOk(kind: Kind, h: Held, i: nat, reach: Reach, k: Prog)
    requires Top(h) <= Rank(Router) && Disciplined(kind, h, k)
    ensures Disciplined(kind, h, Wakes(i, reach, k))
  {
    HoldOk(kind, h, Completion(i), k);
    HoldOk(kind, h, Router, k);
    HoldOk(kind, h, Completion(i), Hold(Router, k));
    HoldOk(kind, h, Router, Hold(Completion(i), k));
    HoldOk(kind, h, Completion(i), Hold(Router, Hold(Completion(i), k)));
  }

  lemma SyncOk(scan: seq<nat>, fate: Fate)
    ensures Disciplined(Plain, NOTHING, SyncCall(scan, fate))
  {
    var k := SyncCall(scan, fate).rest.rest;
    match fate {
      case Unverified =>
      case NotAdmitted => AdmissionOk(Plain, NOTHING, scan, None, Done);
      case Abandoned(i) =>
        LeaveOk(Plain, NOTHING.(mark := Some(i)), i, Done);
        AdmissionOk(Plain, NOTHING, scan, Some(i), Leave(i, Done));
      case Runs(i, reach) =>
        var h := NOTHING.(mark := Some(i));
        LeaveOk(Plain, h, i, Done);
        WakesOk(Plain, h, i, reach, Leave(i, Done));
        HoldOk(Plain, h, Exec(i), Wakes(i, reach, Leave(i, Done)));
        AdmissionOk(Plain, NOTHING, scan, Some(i), Hold(Exec(i), Wakes(i, reach, Leave(i, Done))));
    }
    HoldOk(Plain, NOTHING, Router, k);
  }

  lemma FinishedOk(i: nat, reach: Reach)
    ensures Disciplined(Async, NOTHING.(mark := Some(i), gate := Some(i), loop := true), Finished(i, reach))
  {
    var k := Then(Release(Loop), Done);
    assert Disciplined(Async, NOTHING.(loop := true), k);
    LeaveOk(Async, NOTHING.(mark := Some(i), loop := true), i, k);
    var h := NOTHING.(mark := Some(i), gate := Some(i), loop := true);
    assert Disciplined(Async, h, Then(Release(Gate(i)), Leave(i, k)));
    WakesOk(Async, h, i, reach, Then(Release(Gate(i)), Leave(i, k)));
  }

  lemma OffloadedOk(i: nat, reach: Reach)
    ensures Disciplined(Async, NOTHING.(mark := Some(i), gate := Some(i)), Offloaded(i, reach))
  {
    FinishedOk(i, reach);
    var h := NOTHING.(mark := Some(i), gate := Some(i), token := true);
    var done := Then(Release(Token), Finished(i, reach));
    assert Disciplined(Async, h.(loop := true), done);
    assert Disciplined(Async, h, Then(Acquire(Loop), done));
    HoldOk(Async, h, Exec(i), Then(Acquire(Loop), done));
  }

  lemma GatedOk(i: nat, reach: Reach)
    ensures Disciplined(Async, NOTHING.(mark := Some(i)), Gated(i, reach))
  {
    OffloadedOk(i, reach);
    HoldOk(Async, NOTHING.(mark := Some(i), gate := Some(i)), Loop, Offloaded(i, reach));
  }

  lemma SelectedOk(scan: seq<nat>, fate: Fate)
    ensures Disciplined(Async, NOTHING.(loop := true), Selected(scan, fate))
  {
    var h := NOTHING.(loop := true);
    var out := Then(Release(Loop), Done);
    assert Disciplined(Async, h, out);
    match fate
    case Unverified =>
    case NotAdmitted => AdmissionOk(Async, h, scan, None, out);
    case Abandoned(i) =>
      LeaveOk(Async, h.(mark := Some(i)), i, out);
      AdmissionOk(Async, h, scan, Some(i), Leave(i, out));
    case Runs(i, reach) =>
      GatedOk(i, reach);
      assert Disciplined(Async, h.(mark := Some(i)), Then(Release(Loop), Gated(i, reach)));
      AdmissionOk(Async, h, scan, Some(i), Then(Release(Loop), Gated(i, reach)));
  }

  lemma AsyncOk(scan: seq<nat>, fate: Fate)
    ensures Disciplined(Async, NOTHING, AsyncCall(scan, fate))
  {
    SelectedOk(scan, fate);
    var h := NOTHING.(token := true);
    var k := Then(Release(Token), Selected(scan, fate));
    assert Disciplined(Async, h.(loop := true), k);
    var back := Then(Acquire(Loop), k);
    assert Disciplined(Async, h, back);
    HoldOk(Async, h, Router, back);
    assert Disciplined(Async, NOTHING, Then(Acquire(Token), Hold(Router, back)));
    HoldOk(Async, NOTHING, Loop, Then(Acquire(Token), Hold(Router, back)));
  }

  lemma WorkerOk(i: nat, rearm: Option<bool>)
    ensures Disciplined(Plain, NOTHING, Worker(i, rearm))
  {
    var once, twice := NOTHING.(router := 1), NOTHING.(router := 2);
    var out := Then(Release(Router), Done);
    assert Disciplined(Plain, once, out);
    assert Disciplined(Plain, twice, Then(Release(Router), out));
    HoldOk(Plain, twice, Completion(i), Then(Release(Router), out));
    HoldOk(Plain, once, Completion(i), out);
    assert Disciplined(Plain, twice, Then(Release(Router), Hold(Completion(i), out)));
    var k := Worker(i, rearm).rest.rest.rest;
    assert Disciplined(Plain, once, k);
    HoldOk(Plain, once, Completion(i), k);
  }

  lemma {:induction false} ExecsDoNotWait(todo: seq<nat>, k: Prog)
    requires !Pending(k)
    ensures !Pending(Execs(todo, k))
  {
    if todo != [] { ExecsDoNotWait(todo[1..], k); }
  }

  lemma CloseOk(kind: Kind, h: Held, todo: seq<nat>, k: Prog)
    requires !Pending(k)
    requires (kind.Plain? && h == NOTHING) || (kind.LoopCloser? && h == NOTHING.(loop := true))
    requires Disciplined(kind, h, k)
    ensures Disciplined(kind, h, CloseAll(todo, k))
    ensures Pending(CloseAll(todo, k)) && Awaited(CloseAll(todo, k)) == set i | i in todo
  {
    ExecsOk(kind, h, todo, k);
    ExecsDoNotWait(todo, k);
    assert !Pending(Hold(Router, Execs(todo, k)));
    HoldOk(kind, h, Router, Execs(todo, k));
    var wait := Then(Await(set i | i in todo), Hold(Router, Execs(todo, k)));
    assert Disciplined(kind, h, wait);
    HoldOk(kind, h, Router, wait);
    assert CloseAll(todo, k).rest.rest == wait && Awaited(wait) == set i | i in todo;
  }

  /** Every program of the router takes its locks in rank order, all branches included. */
  lemma ProgramsAreDisciplined(shape: Shape)
    ensures Disciplined(ThreadOf(shape).kind, ThreadOf(shape).held, ThreadOf(shape).prog)
  {
    match shape
    case Sync(scan, fate) => SyncOk(scan, fate);
    case AsyncShape(scan, fate) => AsyncOk(scan, fate);
    case Completing(i, rearm) => WorkerOk(i, rearm);
    case Closer(todo) => CloseOk(Plain, NOTHING, todo, Done);
    case Teardown(todo) =>
      var out := Then(Release(Loop), Done);
      assert Disciplined(LoopCloser, NOTHING.(loop := true), out);
      CloseOk(LoopCloser, NOTHING.(loop := true), todo, out);
  }
}
