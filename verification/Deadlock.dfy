/** Any number of the router's threads, interleaved in any way: nobody waits for ever. */
module Deadlock {
  import opened Wrappers
  import opened LockOrder

  type Sys = seq<Thread>

  // ---------- the machine ----------

  ghost function TokenHolders(s: Sys): set<nat> { set u | 0 <= u < |s| && s[u].held.token }

  /** Can thread `t` take `r` now? */
  ghost predicate Free(s: Sys, t: nat, r: Res) {
    if r == Token then |TokenHolders(s)| < TOKENS
    else forall u :: 0 <= u < |s| && (u != t || r != Router) ==> !Has(s[u].held, r)
  }

  /** No async call is in flight in a slot that teardown `t` will wait for. */
  ghost predicate Clear(s: Sys, t: nat)
    requires t < |s|
  {
    forall u :: 0 <= u < |s| && s[u].kind.Async? && s[u].held.mark.Some? ==>
      s[u].held.mark.value !in Awaited(s[t].prog)
  }

  /** Can thread `t` take its next step?  Teardown starts in order: only once it is clear. */
  ghost predicate CanRun(s: Sys, t: nat) {
    && t < |s| && s[t].prog.Then?
    && match s[t].prog.op
       case Acquire(r) => Free(s, t, r)
       case Join => Free(s, t, Loop) && Clear(s, t)
       case Await(slots) => forall u :: 0 <= u < |s| && s[u].held.mark.Some? ==> s[u].held.mark.value !in slots
       case _ => true
  }

  datatype Step = Spawn(shape: Shape) | Run(t: nat)

  ghost predicate Enabled(s: Sys, e: Step) { e.Spawn? || CanRun(s, e.t) }

  function Next(th: Thread): Thread {
    if th.prog.Then? then Thread(th.kind, After(th.held, th.prog.op), th.prog.rest) else th
  }

  ghost function Apply(s: Sys, e: Step): Sys
    requires Enabled(s, e)
  {
    match e
    case Spawn(shape) => s + [ThreadOf(shape)]
    case Run(t) => s[t := Next(s[t])]
  }

  /** `states` is what a run from `s` goes through when it takes `steps`. */
  ghost predicate IsRunFrom(s: Sys, states: seq<Sys>, steps: seq<Step>) {
    && |states| == |steps| + 1 && states[0] == s
    && forall k :: 0 <= k < |steps| ==> Enabled(states[k], steps[k]) && states[k + 1] == Apply(states[k], steps[k])
  }

  ghost predicate IsRun(states: seq<Sys>, steps: seq<Step>) { IsRunFrom([], states, steps) }

  // ---------- the invariant ----------

  predicate ThreadOk(th: Thread) {
    && Disciplined(th.kind, th.held, th.prog)
    && (!th.kind.Async? ==> th.held.gate.None? && !th.held.token)
    && (th.kind.Plain? ==> !th.held.loop)
    && (th.kind.LoopCloser? ==> th.held.mark.None?)
  }

  predicate Shared(r: Res) { r.Token? || r.InFlight? }

  ghost predicate Exclusive(s: Sys) {
    forall t, u, r :: 0 <= t < u < |s| && !Shared(r) && Has(s[t].held, r) ==> !Has(s[u].held, r)
  }

  /** While teardown has the event loop and is yet to wait, it is clear. */
  ghost predicate LoopClear(s: Sys) {
    forall t :: 0 <= t < |s| && s[t].kind.LoopCloser? && s[t].held.loop && Pending(s[t].prog) ==> Clear(s, t)
  }

  ghost predicate Core(s: Sys) {
    (forall t :: 0 <= t < |s| ==> ThreadOk(s[t])) && Exclusive(s) && |TokenHolders(s)| <= TOKENS
  }

  ghost predicate Inv(s: Sys) { Core(s) && LoopClear(s) }

  lemma NextOk(th: Thread)
    requires ThreadOk(th) && th.prog.Then?
    ensures ThreadOk(Next(th))
  {
  }

  /** What a step can add to what a thread holds. */
  lemma NextHolds(th: Thread, r: Res)
    requires ThreadOk(th) && th.prog.Then? && !Shared(r) && Has(Next(th).held, r)
    ensures Has(th.held, r) || th.prog.op == Acquire(r) || (r == Loop && th.prog.op == Join)
  {
  }

  lemma NextTokens(s: Sys, t: nat)
    requires t < |s| && ThreadOk(s[t]) && s[t].prog.Then? && |TokenHolders(s)| <= TOKENS
    requires s[t].prog.op == Acquire(Token) ==> Free(s, t, Token)
    ensures |TokenHolders(s[t := Next(s[t])])| <= TOKENS
  {
    var before, after := TokenHolders(s), TokenHolders(s[t := Next(s[t])]);
    if s[t].prog.op == Acquire(Token) {
      assert after == before + {t};
    } else {
      assert after <= before;
      Smaller(after, before);
    }
  }

  lemma Smaller(a: set<nat>, b: set<nat>)
    requires a <= b
    ensures |a| <= |b|
  {
    assert b == a + (b - a);
  }

  /** What thread `t` newly takes nobody else has. */
  lemma TakesFree(s: Sys, t: nat, u: nat, r: Res)
    requires Core(s) && CanRun(s, t) && u < |s| && u != t && !Shared(r)
    requires Has(Next(s[t]).held, r)
    ensures !Has(s[u].held, r)
  {
    NextHolds(s[t], r);
    assert t < u || u < t;
  }

  lemma RunExclusive(s: Sys, t: nat)
    requires Core(s) && CanRun(s, t)
    ensures Exclusive(s[t := Next(s[t])])
  {
    var s' := s[t := Next(s[t])];
    forall v, u, r | 0 <= v < u < |s'| && !Shared(r) && Has(s'[v].held, r) ensures !Has(s'[u].held, r) {
      assert s'[v] == (if v == t then Next(s[t]) else s[v]) && s'[u] == (if u == t then Next(s[t]) else s[u]);
      if v == t {
        TakesFree(s, t, u, r);
      } else if u == t && Has(s'[t].held, r) {
        TakesFree(s, t, v, r);
      }
    }
  }

  lemma OneHolder(s: Sys, t: nat, u: nat, r: Res)
    requires Exclusive(s) && t < |s| && u < |s| && t != u && !Shared(r) && Has(s[t].held, r)
    ensures !Has(s[u].held, r)
  {
    assert t < u || u < t;
  }

  lemma RunLoopClear(s: Sys, t: nat)
    requires Inv(s) && CanRun(s, t)
    ensures LoopClear(s[t := Next(s[t])])
  {
    var s' := s[t := Next(s[t])];
    assert ThreadOk(s[t]);
    forall v | 0 <= v < |s'| && s'[v].kind.LoopCloser? && s'[v].held.loop && Pending(s'[v].prog) ensures Clear(s', v) {
      if v == t { StillClear(s, t); } else { OthersClear(s, t, v); }
    }
  }

  /** Teardown's own steps up to its wait. */
  lemma StillClear(s: Sys, t: nat)
    requires Inv(s) && CanRun(s, t) && s[t].kind.LoopCloser? && Next(s[t]).held.loop && Pending(Next(s[t]).prog)
    ensures Clear(s[t := Next(s[t])], t)
  {
    assert ThreadOk(s[t]);
    assert Clear(s, t) && Awaited(Next(s[t]).prog) == Awaited(s[t].prog);
  }

  /** While teardown has the loop no async call is admitted. */
  lemma OthersClear(s: Sys, t: nat, v: nat)
    requires Inv(s) && CanRun(s, t) && v < |s| && v != t && s[v].held.loop && Clear(s, v)
    ensures Clear(s[t := Next(s[t])], v)
  {
    assert ThreadOk(s[t]);
    if s[t].prog.op.Mark? && s[t].kind.Async? {
      assert Has(s[t].held, Loop);
      OneHolder(s, t, v, Loop);
    }
  }

  lemma StepCore(s: Sys, e: Step)
    requires Core(s) && Enabled(s, e)
    ensures Core(Apply(s, e))
  {
    match e
    case Spawn(shape) =>
      ProgramsAreDisciplined(shape);
      assert TokenHolders(s + [ThreadOf(shape)]) == TokenHolders(s);
    case Run(t) =>
      NextOk(s[t]);
      NextTokens(s, t);
      RunExclusive(s, t);
  }

  lemma StepInv(s: Sys, e: Step)
    requires Inv(s) && Enabled(s, e)
    ensures Inv(Apply(s, e))
  {
    StepCore(s, e);
    match e
    case Spawn(shape) => SpawnClear(s, shape);
    case Run(t) => RunLoopClear(s, t);
  }

  lemma SpawnClear(s: Sys, shape: Shape)
    requires LoopClear(s)
    ensures LoopClear(s + [ThreadOf(shape)])
  {
    var s' := s + [ThreadOf(shape)];
    forall v | 0 <= v < |s'| && s'[v].kind.LoopCloser? && s'[v].held.loop && Pending(s'[v].prog) ensures Clear(s', v) {
      assert Clear(s, v);
    }
  }

  lemma {:induction false} RunInv(states: seq<Sys>, steps: seq<Step>, k: nat)
    requires IsRun(states, steps) && k <= |steps|
    ensures Inv(states[k])
  {
    if k == 0 {
      assert TokenHolders([]) == {};
    } else {
      RunInv(states, steps, k - 1);
      StepInv(states[k - 1], steps[k - 1]);
    }
  }

  // ---------- waiting ----------

  predicate Unfinished(s: Sys, t: nat) { t < |s| && s[t].prog.Then? }

  ghost predicate Blocked(s: Sys, t: nat) { Unfinished(s, t) && !CanRun(s, t) }

  /** `u` has what `t` wants next. */
  predicate WaitsFor(s: Sys, t: nat, u: nat) {
    && t != u && Unfinished(s, t) && u < |s|
    && match s[t].prog.op
       case Acquire(r) => Has(s[u].held, r)
       case Join => s[u].held.loop
                    || (s[u].kind.Async? && s[u].held.mark.Some? && s[u].held.mark.value in Awaited(s[t].prog))
       case Await(slots) => s[u].held.mark.Some? && s[u].held.mark.value in slots
       case _ => false
  }

  /** How high in the order the thing is that a thread wants; teardown waits for calls from
      between the event loop and the execution locks. */
  function Level(th: Thread): nat {
    if th.prog.Done? then 0
    else match th.prog.op
         case Acquire(r) => 2 * Rank(r)
         case Await(_) => if th.kind.LoopCloser? then 2 * Rank(Loop) + 1 else 0
         case _ => 0
  }

  lemma ReenterFree(s: Sys, u: nat)
    requires Inv(s) && Unfinished(s, u) && s[u].prog.op == Acquire(Router) && s[u].held.router > 0
    ensures CanRun(s, u)
  {
    forall v | 0 <= v < |s| && v != u ensures !Has(s[v].held, Router) { OneHolder(s, u, v, Router); }
  }

  /** A blocked thread wants something above everything it has. */
  lemma WantsAbove(s: Sys, u: nat)
    requires Inv(s) && Blocked(s, u)
    ensures Top(s[u].held) > 0 ==> Level(s[u]) >= 2 * Top(s[u].held) - 1
    ensures s[u].kind.Plain? && s[u].held.mark.Some? ==> Level(s[u]) > 2 * Rank(Loop) + 1
  {
    assert ThreadOk(s[u]);
    if s[u].prog.op == Acquire(Router) && s[u].held.router > 0 { ReenterFree(s, u); }
  }

  /** Whoever a waiting thread waits for, if it waits too, waits for something higher. */
  lemma EdgeRises(s: Sys, t: nat, u: nat)
    requires Inv(s) && Blocked(s, t) && WaitsFor(s, t, u) && Blocked(s, u)
    ensures Level(s[t]) < Level(s[u])
  {
    assert ThreadOk(s[t]) && ThreadOk(s[u]);
    WantsAbove(s, u);
    match s[t].prog.op
    case Acquire(r) => assert Top(s[u].held) > Rank(r);
    case Join => assert Top(s[u].held) > 0;
    case Await(_) =>
      assert Top(s[u].held) > 0;
      if s[t].kind.LoopCloser? { assert s[t].held.loop && s[u].kind.Plain?; }
    case _ =>
  }

  /** A waiting thread waits for some other thread. */
  lemma Blocker(s: Sys, t: nat) returns (u: nat)
    requires Inv(s) && Blocked(s, t)
    ensures WaitsFor(s, t, u) && Unfinished(s, u)
  {
    assert ThreadOk(s[t]);
    match s[t].prog.op {
      case Acquire(r) =>
        if r == Token {
          u := TokenOwner(s);
        } else {
          u :| 0 <= u < |s| && (u != t || r != Router) && Has(s[u].held, r);
        }
      case Join =>
        if !Free(s, t, Loop) {
          u :| 0 <= u < |s| && Has(s[u].held, Loop);
        } else {
          u :| 0 <= u < |s| && s[u].kind.Async? && s[u].held.mark.Some? && s[u].held.mark.value in Awaited(s[t].prog);
        }
      case Await(slots) => u :| 0 <= u < |s| && s[u].held.mark.Some? && s[u].held.mark.value in slots;
    }
    assert ThreadOk(s[u]);
  }

  lemma TokenOwner(s: Sys) returns (u: nat)
    requires |TokenHolders(s)| >= TOKENS
    ensures u < |s| && s[u].held.token
  {
    u :| u in TokenHolders(s);
  }

  lemma {:induction false} FindRunnable(s: Sys, t: nat) returns (u: nat)
    requires Inv(s) && Unfinished(s, t)
    ensures CanRun(s, u)
    decreases 12 - Level(s[t])
  {
    if CanRun(s, t) {
      u := t;
    } else {
      var v := Blocker(s, t);
      if CanRun(s, v) {
        u := v;
      } else {
        EdgeRises(s, t, v);
        u := FindRunnable(s, v);
      }
    }
  }

  ghost predicate Stuck(s: Sys) {
    (exists t: nat :: Unfinished(s, t)) && forall u: nat :: !CanRun(s, u)
  }

  // ---------- theorems ----------

  /** No reachable state is a deadlock. */
  lemma NoDeadlock(states: seq<Sys>, steps: seq<Step>, k: nat)
    requires IsRun(states, steps) && k <= |steps|
    ensures !Stuck(states[k])
  {
    RunInv(states, steps, k);
    if t: nat :| Unfinished(states[k], t) {
      var u := FindRunnable(states[k], t);
    }
  }

  /** Threads that each wait for the next. */
  ghost predicate Chain(s: Sys, c: seq<nat>) {
    && (forall i :: 0 <= i < |c| ==> Blocked(s, c[i]))
    && (forall i :: 0 <= i < |c| - 1 ==> WaitsFor(s, c[i], c[i + 1]))
  }

  lemma ChainPrefix(s: Sys, c: seq<nat>)
    requires Chain(s, c) && |c| > 1
    ensures Chain(s, c[..|c| - 1]) && WaitsFor(s, c[|c| - 2], c[|c| - 1])
    ensures Blocked(s, c[|c| - 2]) && Blocked(s, c[|c| - 1])
  {
    var rest := c[..|c| - 1];
    forall i | 0 <= i < |rest| ensures Blocked(s, rest[i]) { assert Blocked(s, c[i]); }
    forall i | 0 <= i < |rest| - 1 ensures WaitsFor(s, rest[i], rest[i + 1]) { assert WaitsFor(s, c[i], c[i + 1]); }
  }

  lemma {:induction false} ChainRises(s: Sys, c: seq<nat>)
    requires Inv(s) && Chain(s, c) && |c| > 1
    ensures Level(s[c[0]]) < Level(s[c[|c| - 1]])
  {
    ChainPrefix(s, c);
    EdgeRises(s, c[|c| - 2], c[|c| - 1]);
    if |c| > 2 { ChainRises(s, c[..|c| - 1]); }
  }

  /** No reachable state has a cycle of waiting threads. */
  lemma NoWaitingCycle(states: seq<Sys>, steps: seq<Step>, k: nat, c: seq<nat>)
    requires IsRun(states, steps) && k <= |steps| && Chain(states[k], c) && c != []
    ensures !WaitsFor(states[k], c[|c| - 1], c[0])
  {
    RunInv(states, steps, k);
    if WaitsFor(states[k], c[|c| - 1], c[0]) {
      EdgeRises(states[k], c[|c| - 1], c[0]);
      ChainRises(states[k], c);
    }
  }

  /** At most two tokens are in use, and a call that waits for its session's gate holds none --
      nor any lock, nor the event loop. */
  lemma TokensAndGates(states: seq<Sys>, steps: seq<Step>, k: nat, t: nat)
    requires IsRun(states, steps) && k <= |steps|
    ensures |TokenHolders(states[k])| <= 2
    ensures Unfinished(states[k], t) && states[k][t].prog.op.Acquire? && states[k][t].prog.op.r.Gate? ==>
              states[k][t].held == NOTHING.(mark := states[k][t].held.mark)
  {
    RunInv(states, steps, k);
    if t < |states[k]| { assert ThreadOk(states[k][t]); }
  }

  // ---------- teardown that does not wait for its calls ----------

  ghost predicate Leads(s: Sys, states: seq<Sys>, steps: seq<Step>, s': Sys) {
    IsRunFrom(s, states, steps) && states[|steps|] == s'
  }

  ghost predicate Follows(s: Sys, s': Sys) { exists states, steps :: Leads(s, states, steps, s') }

  lemma FollowsItself(s: Sys)
    ensures Follows(s, s)
  {
    assert Leads(s, [s], [], s);
  }

  lemma FollowsFirst(s: Sys, e: Step, s': Sys)
    requires Enabled(s, e) && Follows(Apply(s, e), s')
    ensures Follows(s, s')
  {
    var states, steps :| Leads(Apply(s, e), states, steps, s');
    assert ([s] + states)[1..] == states;
    assert Leads(s, [s] + states, [e] + steps, s');
  }

  lemma {:induction false} FollowsInv(s: Sys, states: seq<Sys>, steps: seq<Step>, k: nat)
    requires Inv(s) && IsRunFrom(s, states, steps) && k <= |steps|
    ensures Inv(states[k])
  {
    if k > 0 {
      FollowsInv(s, states, steps, k - 1);
      StepInv(states[k - 1], steps[k - 1]);
    }
  }

  /** Teardown `t` has the event loop and waits for a slot in which async call `u` is in flight. */
  ghost predicate Jammed(s: Sys, t: nat, u: nat) {
    && t < |s| && u < |s| && t != u
    && s[t].kind.LoopCloser? && s[t].held.loop && Pending(s[t].prog)
    && s[u].kind.Async? && s[u].held.mark.Some? && s[u].held.mark.value in Awaited(s[t].prog) && !s[u].held.loop
  }

  /** It has it for ever: the call needs the loop to leave. */
  lemma JamStays(s: Sys, e: Step, t: nat, u: nat)
    requires Core(s) && Enabled(s, e) && Jammed(s, t, u)
    ensures Jammed(Apply(s, e), t, u)
  {
    assert ThreadOk(s[t]) && ThreadOk(s[u]);
    assert Has(s[t].held, Loop);
  }

  function Ops(p: Prog): nat { if p.Done? then 0 else 1 + Ops(p.rest) }

  function AllOps(s: Sys): nat { if s == [] then 0 else AllOps(s[..|s| - 1]) + Ops(s[|s| - 1].prog) }

  lemma {:induction false} OneOpLess(s: Sys, t: nat)
    requires Unfinished(s, t)
    ensures AllOps(s[t := Next(s[t])]) == AllOps(s) - 1
  {
    var s', last := s[t := Next(s[t])], |s| - 1;
    if t == last {
      assert s'[..last] == s[..last];
    } else {
      OneOpLess(s[..last], t);
      assert s'[..last] == s[..last][t := Next(s[t])];
    }
  }

  /** Left alone, a jammed system runs until nobody can move. */
  lemma {:induction false} JamSticks(s: Sys, t: nat, u: nat) returns (s': Sys)
    requires Core(s) && Jammed(s, t, u)
    ensures Follows(s, s') && Stuck(s')
    decreases AllOps(s)
  {
    if v: nat :| CanRun(s, v) {
      StepCore(s, Run(v));
      JamStays(s, Run(v), t, u);
      OneOpLess(s, v);
      s' := JamSticks(Apply(s, Run(v)), t, u);
      FollowsFirst(s, Run(v), s');
    } else {
      FollowsItself(s);
      assert Unfinished(s, t);
      s' := s;
    }
  }

  /** `t` is a teardown that could take the event loop now, in order or not. */
  ghost predicate CanTake(s: Sys, t: nat) { Unfinished(s, t) && s[t].prog.op.Join? && Free(s, t, Loop) }

  ghost function Take(s: Sys, t: nat): Sys
    requires CanTake(s, t)
  {
    s[t := Next(s[t])]
  }

  lemma TakeCore(s: Sys, t: nat)
    requires Core(s) && CanTake(s, t)
    ensures Core(Take(s, t))
  {
    var s' := Take(s, t);
    NextOk(s[t]);
    NextTokens(s, t);
    assert ThreadOk(s[t]);
    forall v, u, r | 0 <= v < u < |s'| && !Shared(r) && Has(s'[v].held, r) ensures !Has(s'[u].held, r) {
      assert s'[v] == (if v == t then Next(s[t]) else s[v]) && s'[u] == (if u == t then Next(s[t]) else s[u]);
      assert Has(Next(s[t]).held, r) ==> r == Loop;
    }
  }

  lemma TakeJams(s: Sys, t: nat) returns (u: nat)
    requires Core(s) && CanTake(s, t) && !Clear(s, t)
    ensures Jammed(Take(s, t), t, u)
  {
    u :| 0 <= u < |s| && s[u].kind.Async? && s[u].held.mark.Some? && s[u].held.mark.value in Awaited(s[t].prog);
    assert ThreadOk(s[t]) && ThreadOk(s[u]);
    assert !Has(s[u].held, Loop);
  }

  /** `close()` runs on the event loop at lifespan teardown and blocks it.  Take any reachable
      state in which a teardown can take the loop.  From there a deadlock can follow if and only
      if an async call is then in flight in a slot that this teardown will wait for. */
  lemma TeardownExact(states: seq<Sys>, steps: seq<Step>, k: nat, t: nat)
    requires IsRun(states, steps) && k <= |steps| && CanTake(states[k], t)
    ensures (exists s' :: Follows(Take(states[k], t), s') && Stuck(s')) <==> !Clear(states[k], t)
  {
    var s := states[k];
    RunInv(states, steps, k);
    if Clear(s, t) {
      assert Take(s, t) == Apply(s, Run(t));
      StepInv(s, Run(t));
      forall s' | Follows(Take(s, t), s') ensures !Stuck(s') { NeverStuck(Take(s, t), s'); }
    } else {
      TakeCore(s, t);
      var u := TakeJams(s, t);
      var s' := JamSticks(Take(s, t), t, u);
    }
  }

  lemma NeverStuck(s: Sys, s': Sys)
    requires Inv(s) && Follows(s, s')
    ensures !Stuck(s')
  {
    var states, steps :| Leads(s, states, steps, s');
    FollowsInv(s, states, steps, |steps|);
    if t: nat :| Unfinished(s', t) {
      var u := FindRunnable(s', t);
    }
  }

  // ---------- both kinds of state can be reached ----------

  lemma FollowsLast(s: Sys, s': Sys, e: Step)
    requires Follows(s, s') && Enabled(s', e)
    ensures Follows(s, Apply(s', e))
  {
    var states, steps :| Leads(s, states, steps, s');
    assert Leads(s, states + [Apply(s', e)], steps + [e], Apply(s', e));
  }

  /** One more move of a call that is alone. */
  lemma Alone(th: Thread) returns (next: Thread)
    requires Follows([], [th]) && th.prog.Then? && !th.prog.op.Join? && !th.prog.op.Await?
    requires th.prog.op.Acquire? ==> !Has(th.held, th.prog.op.r)
    ensures next == Next(th) && Follows([], [next])
  {
    next := Next(th);
    if th.prog.op == Acquire(Token) { assert TokenHolders([th]) == {}; }
    FollowsLast([], [th], Run(0));
    assert [th][0 := next] == [next];
  }

  function Verified(): Thread { Thread(Async, NOTHING.(loop := true), Selected([], Runs(0, NoRequest))) }

  function AtGate(): Thread { Thread(Async, NOTHING.(mark := Some(0)), Gated(0, NoRequest)) }

  lemma ReachVerified()
    ensures Follows([], [Verified()])
  {
    FollowsItself([]);
    FollowsLast([], [], Spawn(AsyncShape([], Runs(0, NoRequest))));
    var th := ThreadOf(AsyncShape([], Runs(0, NoRequest)));
    assert [] + [th] == [th];
    th := Alone(th);
    th := Alone(th);
    th := Alone(th);
    th := Alone(th);
    th := Alone(th);
    th := Alone(th);
    th := Alone(th);
  }

  lemma ReachGate()
    ensures Follows([], [AtGate()])
  {
    ReachVerified();
    var th := Alone(Verified());
    th := Alone(th);
    th := Alone(th);
    th := Alone(th);
  }

  /** A call waits for its session's gate while a teardown is about to take the loop: the teardown
      can, and it is clear exactly when it will not wait for that call's slot. */
  lemma TeardownBesideCall(todo: seq<nat>) returns (s: Sys)
    ensures Follows([], s) && CanTake(s, 1) && (Clear(s, 1) <==> 0 !in todo)
  {
    ReachGate();
    FollowsLast([], [AtGate()], Spawn(Teardown(todo)));
    s := [AtGate(), ThreadOf(Teardown(todo))];
    assert [AtGate()] + [ThreadOf(Teardown(todo))] == s;
    CloseOk(LoopCloser, NOTHING.(loop := true), todo, Then(Release(Loop), Done));
    assert Awaited(s[1].prog) == set i | i in todo;
    assert s[0].held.mark == Some(0);
  }
}
