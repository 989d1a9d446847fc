/** The programs of `LockOrder` against the steps of `RouterMachine`: each thread takes, in order, just
    the locks that the sections of its steps need. */
module LockSteps {
  import opened Wrappers
  import opened LockOrder
  import R = RouterMachine

  predicate IsRouters(op: Op) {
    match op
    case Acquire(r) => r.Exec? || r.Router? || r.Completion?
    case Mark(_) => true
    case Unmark(_) => true
    case Await(_) => true
    case _ => false
  }

  /** What a program takes of the router, its releases and the waiting of async calls left out. */
  function Takes(p: Prog): Prog {
    match p
    case Done => Done
    case Then(op, rest) => if IsRouters(op) then Then(op, Takes(rest)) else Takes(rest)
  }

  function Looks(scan: seq<nat>, k: Prog): Prog {
    if scan == [] then k else Then(Acquire(Completion(scan[0])), Looks(scan[1..], k))
  }

  function Closes(todo: seq<nat>, k: Prog): Prog {
    if todo == [] then k else Then(Acquire(Exec(todo[0])), Closes(todo[1..], k))
  }

  /** What the section of a step takes and then `k`, for a thread of slot `i` whose admission looks
      at `scan` and whose shutdown closes `todo`.  `End` is the end of the section of `Begin`. */
  function Needs(e: R.Step, i: nat, scan: seq<nat>, todo: seq<nat>, k: Prog): Prog {
    match e
    case Gate(_, _, _, _) => Then(Acquire(Router), k)
    case Enter(_) => Then(Acquire(Router), Looks(scan, Then(Mark(i), k)))
    case Begin(_) => Then(Acquire(Exec(i)), k)
    case Ask(_, _) => Then(Acquire(Completion(i)), k)
    case CheckLaunch(_) => Then(Acquire(Router), k)
    case Launch(_, _) => Then(Acquire(Completion(i)), k)
    case Leave(_) => Then(Acquire(Router), Then(Unmark(i), k))
    case FinishCycle(_, _) => Then(Acquire(Router), Then(Acquire(Completion(i)), k))
    case Rearm(_, _) => Then(Acquire(Router), Then(Acquire(Completion(i)), k))
    case Shutdown => Then(Acquire(Router), k)
    case Drained(_) => Then(Await(set j | j in todo), Then(Acquire(Router), k))
    case CloseNext(_) => Closes(todo, k)
    case _ => k
  }

  /** The steps of a call that runs and gets as far as `reach`. */
  function CallNeeds(reach: Reach, i: nat, scan: seq<nat>): Prog {
    Needs(R.Gate(0, true, true, true), i, scan, [],
    Needs(R.Enter(0), i, scan, [],
    Needs(R.Begin(0), i, scan, [], WakeNeeds(reach, i, Needs(R.Leave(0), i, scan, [], Done)))))
  }

  function WakeNeeds(reach: Reach, i: nat, k: Prog): Prog {
    var ask, check := R.Ask(0, true), R.CheckLaunch(0);
    match reach
    case NoRequest => k
    case Requested => Needs(ask, i, [], [], Needs(R.Drop(0), i, [], [], k))
    case LaunchRefused => Needs(ask, i, [], [], Needs(check, i, [], [], k))
    case Launched => Needs(ask, i, [], [], Needs(check, i, [], [], Needs(R.Launch(0, true), i, [], [], k)))
  }

  lemma {:induction false} PeeksTakes(scan: seq<nat>, k: Prog)
    ensures Takes(Peeks(scan, k)) == Looks(scan, Takes(k))
  {
    if scan != [] { PeeksTakes(scan[1..], k); }
  }

  lemma {:induction false} ExecsTakes(todo: seq<nat>, k: Prog)
    ensures Takes(Execs(todo, k)) == Closes(todo, Takes(k))
  {
    if todo != [] { ExecsTakes(todo[1..], k); }
  }

  lemma HoldTakes(r: Res, k: Prog)
    ensures Takes(Hold(r, k)) == if IsRouters(Acquire(r)) then Then(Acquire(r), Takes(k)) else Takes(k)
  {
    assert Takes(Then(Release(r), k)) == Takes(k);
  }

  lemma WakesTakes(i: nat, reach: Reach, k: Prog)
    ensures Takes(Wakes(i, reach, k)) == WakeNeeds(reach, i, Takes(k))
  {
    HoldTakes(Completion(i), k);
    HoldTakes(Router, k);
    HoldTakes(Completion(i), Hold(Router, k));
    HoldTakes(Router, Hold(Completion(i), k));
    HoldTakes(Completion(i), Hold(Router, Hold(Completion(i), k)));
  }

  lemma AdmissionTakes(scan: seq<nat>, i: nat, k: Prog)
    ensures Takes(Admission(scan, Some(i), k)) == Needs(R.Enter(0), i, scan, [], Takes(k))
  {
    var out := Then(Release(Router), k);
    PeeksTakes(scan, Then(Mark(i), out));
    assert Takes(out) == Takes(k);
    assert Takes(Then(Mark(i), out)) == Then(Mark(i), Takes(out));
  }

  lemma LeaveTakes(i: nat, k: Prog)
    ensures Takes(Leave(i, k)) == Needs(R.Leave(0), i, [], [], Takes(k))
  {
    var out := Then(Release(Router), k);
    assert Takes(out) == Takes(k);
    assert Takes(Then(Unmark(i), out)) == Then(Unmark(i), Takes(out));
  }

  /** A call that runs in slot `i` takes exactly what its steps need, in their order, whether it is
      made synchronously or on the event loop. */
  lemma CallsTakeWhatTheirStepsNeed(scan: seq<nat>, i: nat, reach: Reach)
    ensures Takes(SyncCall(scan, Runs(i, reach))) == CallNeeds(reach, i, scan)
    ensures Takes(AsyncCall(scan, Runs(i, reach))) == CallNeeds(reach, i, scan)
  {
    SyncTakes(scan, i, reach);
    AsyncTakes(scan, i, reach);
  }

  lemma SyncTakes(scan: seq<nat>, i: nat, reach: Reach)
    ensures Takes(SyncCall(scan, Runs(i, reach))) == CallNeeds(reach, i, scan)
  {
    var left := Leave(i, Done);
    var run := Hold(Exec(i), Wakes(i, reach, left));
    LeaveTakes(i, Done);
    WakesTakes(i, reach, left);
    HoldTakes(Exec(i), Wakes(i, reach, left));
    AdmissionTakes(scan, i, run);
    HoldTakes(Router, Admission(scan, Some(i), run));
  }

  lemma FinishedTakes(i: nat, reach: Reach)
    ensures Takes(Finished(i, reach)) == WakeNeeds(reach, i, Needs(R.Leave(0), i, [], [], Done))
  {
    var left := Leave(i, Then(Release(Loop), Done));
    LeaveTakes(i, Then(Release(Loop), Done));
    assert Takes(Then(Release(Loop), Done)) == Done;
    assert Takes(Then(Release(Gate(i)), left)) == Takes(left);
    WakesTakes(i, reach, Then(Release(Gate(i)), left));
  }

  lemma OffloadedTakes(i: nat, reach: Reach)
    ensures Takes(Offloaded(i, reach)) == Then(Acquire(Exec(i)), Takes(Finished(i, reach)))
  {
    var back := Then(Release(Token), Finished(i, reach));
    assert Takes(back) == Takes(Finished(i, reach));
    assert Takes(Then(Acquire(Loop), back)) == Takes(back);
    HoldTakes(Exec(i), Then(Acquire(Loop), back));
  }

  lemma GatedTakes(i: nat, reach: Reach)
    ensures Takes(Then(Release(Loop), Gated(i, reach))) == Then(Acquire(Exec(i)), Takes(Finished(i, reach)))
  {
    OffloadedTakes(i, reach);
    HoldTakes(Loop, Offloaded(i, reach));
    assert Takes(Gated(i, reach)) == Takes(Hold(Loop, Offloaded(i, reach)));
  }

  lemma AsyncTakes(scan: seq<nat>, i: nat, reach: Reach)
    ensures Takes(AsyncCall(scan, Runs(i, reach))) == CallNeeds(reach, i, scan)
  {
    FinishedTakes(i, reach);
    GatedTakes(i, reach);
    AdmissionTakes(scan, i, Then(Release(Loop), Gated(i, reach)));
    VerifiedTakes(Selected(scan, Runs(i, reach)));
  }

  /** Verification takes the router lock, on a worker thread. */
  lemma VerifiedTakes(k: Prog)
    ensures Takes(Hold(Loop, Then(Acquire(Token), Hold(Router, Then(Acquire(Loop), Then(Release(Token), k))))))
         == Then(Acquire(Router), Takes(k))
  {
    var back := Then(Acquire(Loop), Then(Release(Token), k));
    assert Takes(Then(Release(Token), k)) == Takes(k);
    assert Takes(back) == Takes(k);
    HoldTakes(Router, back);
    HoldTakes(Loop, Then(Acquire(Token), Hold(Router, back)));
  }

  /** A completion worker takes what the end of its cycle needs, and what handing over needs. */
  lemma WorkersTakeWhatTheirStepsNeed(i: nat, refused: bool)
    ensures Takes(Worker(i, None)) == Needs(R.FinishCycle(0, false), i, [], [], Done)
    ensures Takes(Worker(i, Some(refused)))
         == Needs(R.FinishCycle(0, false), i, [], [], Needs(R.Rearm(0, !refused), i, [], [], Done))
  {
    var out := Then(Release(Router), Done);
    assert Takes(out) == Done;
    HoldTakes(Completion(i), out);
    HoldTakes(Completion(i), Then(Release(Router), out));
    var again := Then(Acquire(Router),
                      if refused then Hold(Completion(i), Then(Release(Router), out))
                      else Then(Release(Router), Hold(Completion(i), out)));
    assert Takes(Then(Release(Router), out)) == Done;
    HoldTakes(Completion(i), again);
  }

  /** `close()` marks the router closed, waits for exactly the slots it took, and closes each; at
      lifespan teardown it does so on the event loop, which takes nothing else of the router. */
  lemma ClosersTakeWhatTheirStepsNeed(todo: seq<nat>)
    ensures var needs := Needs(R.Shutdown, 0, [], todo, Needs(R.Drained(0), 0, [], todo,
                         Needs(R.CloseNext(0), 0, [], todo, Done)));
            Takes(ThreadOf(Closer(todo)).prog) == needs && Takes(ThreadOf(Teardown(todo)).prog) == needs
  {
    CloseTakes(todo, Done);
    CloseTakes(todo, Then(Release(Loop), Done));
    assert Takes(Then(Release(Loop), Done)) == Done;
  }

  lemma CloseTakes(todo: seq<nat>, k: Prog)
    ensures Takes(CloseAll(todo, k))
         == Needs(R.Shutdown, 0, [], todo, Needs(R.Drained(0), 0, [], todo,
            Needs(R.CloseNext(0), 0, [], todo, Takes(k))))
  {
    ExecsTakes(todo, k);
    HoldTakes(Router, Execs(todo, k));
    HoldTakes(Router, Then(Await(set j | j in todo), Hold(Router, Execs(todo, k))));
  }

  /** What a thread that holds `h` holds when it first comes to do `op`. */
  function HeldAt(h: Held, p: Prog, op: Op): Option<Held>
    decreases p
  {
    match p
    case Done => None
    case Then(first, rest) => if first == op then Some(h) else HeldAt(After(h, first), rest, op)
  }

  /** An async call waits for its session's gate after its admission and holding nothing, goes on
      on the event loop, and executes holding the gate and a worker token but not the event loop. */
  lemma AsyncExecutes(i: nat, reach: Reach)
    ensures var marked := NOTHING.(mark := Some(i));
            && HeldAt(marked, Gated(i, reach), Acquire(Gate(i))) == Some(marked)
            && HeldAt(marked, Gated(i, reach), Acquire(Loop)) == Some(marked.(gate := Some(i)))
            && HeldAt(marked, Gated(i, reach), Acquire(Exec(i))) == Some(marked.(gate := Some(i), token := true))
  {
    var marked := NOTHING.(mark := Some(i));
    var gated := marked.(gate := Some(i));
    var offloaded := Offloaded(i, reach);
    assert HeldAt(gated.(token := true), offloaded.rest, Acquire(Exec(i))) == Some(gated.(token := true));
    assert HeldAt(gated, offloaded, Acquire(Exec(i))) == Some(gated.(token := true));
    assert After(After(gated, Acquire(Loop)), Release(Loop)) == gated;
    assert HeldAt(gated.(loop := true), Then(Release(Loop), offloaded), Acquire(Exec(i)))
        == HeldAt(gated, offloaded, Acquire(Exec(i)));
    assert HeldAt(gated, Hold(Loop, offloaded), Acquire(Exec(i)))
        == HeldAt(gated.(loop := true), Then(Release(Loop), offloaded), Acquire(Exec(i)));
  }

  /** Whenever the program takes a completion lock of slot `i` it holds the router lock. */
  predicate UnderRouter(h: Held, p: Prog, i: nat)
    decreases p
  {
    match p
    case Done => true
    case Then(op, rest) => (op == Acquire(Completion(i)) ==> h.router > 0) && UnderRouter(After(h, op), rest, i)
  }

  /** A worker has the router lock over both its completion sections, and lets it go in between
      only where it has it twice. */
  lemma WorkerKeepsRouter(i: nat, refused: bool)
    ensures UnderRouter(NOTHING, Worker(i, Some(refused)), i)
  {
    var out := Then(Release(Router), Done);
    var once, twice := NOTHING.(router := 1), NOTHING.(router := 2);
    assert UnderRouter(once, out, i) && UnderRouter(twice, Then(Release(Router), out), i);
    SectionUnder(once, i, out);
    SectionUnder(twice, i, Then(Release(Router), out));
    var again := if refused then Hold(Completion(i), Then(Release(Router), out))
                 else Then(Release(Router), Hold(Completion(i), out));
    assert After(twice, Release(Router)) == once;
    assert UnderRouter(twice, again, i);
    assert UnderRouter(once, Then(Acquire(Router), again), i);
    SectionUnder(once, i, Then(Acquire(Router), again));
  }

  lemma SectionUnder(h: Held, i: nat, k: Prog)
    requires h.router > 0 && h.completion.None? && UnderRouter(h, k, i)
    ensures UnderRouter(h, Hold(Completion(i), k), i)
  {
    assert After(After(h, Acquire(Completion(i))), Release(Completion(i))) == h;
    assert UnderRouter(After(h, Acquire(Completion(i))), Then(Release(Completion(i)), k), i);
  }

  /** And a step that needs the router lock waits until no worker keeps it over its two sections. */
  lemma RouterNeedsWait(s: R.Sys, e: R.Step)
    requires R.Enabled(s, e)
    ensures e.Rearm? ==> s.lock == Some(e.w)
    ensures e.Gate? || e.Enter? || e.CheckLaunch? || e.Leave? || e.FinishCycle? || e.Shutdown? || e.Drained? ==>
              s.lock.None?
  {
  }
}
