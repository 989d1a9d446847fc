/** The bridge and the router together: every call presents a credential, and is admitted to a
    session's slot only once the bridge has accepted it. */
module EndToEnd {
  import opened Wrappers
  import opened Json
  import opened Tokens
  import opened Bridge
  import B = BridgeRuns
  import R = RouterMachine
  import RI = RouterInvariant
  import RS = RouterSteps

  /** What a call asked for: an operation and its logical arguments, the carrier removed. */
  datatype Work = Work(operation: string, arguments: Json)

  /** An operation run in a slot of session `session` and epoch `epoch`, by call `t`. */
  datatype Ran = Ran(t: nat, session: string, epoch: string, work: Work)

  /** `carried[t]` is the acceptance call `t` was let in by; `log` the executions so far. */
  datatype Sys = Sys(b: B.Sys, r: R.Sys, asked: map<nat, Work>, carried: map<nat, nat>, log: seq<Ran>)

  /** The bridge's computations, and how a call's arguments split into logical arguments and token. */
  datatype Parts = Parts(rules: B.Rules, extract: Json -> Option<(Json, string)>)

  function PartsOf(c: Crypto): Parts {
    Parts(B.RulesOf(c), raw => match ExtractCarrier(raw) case Ok(r) => Some(r) case Err(_) => None)
  }

  function RequestOf(w: Work): Request { Request(w.operation, w.arguments, None, None) }

  /** `Present` is the first section of a call's verify, `Settle` the second with the response
      delivered or lost; `Foreign` is any other use of the bridge; `Route` a router step. */
  datatype Step =
    | Present(t: nat, operation: string, raw: Json)
    | Settle(t: nat, now: int, lost: bool)
    | Foreign(use: B.Step)
    | Route(move: R.Step)

  predicate IsForeign(s: Sys, e: B.Step) {
    match e
    case DoIssue(_) => true
    case DoRotate(_, _) => true
    case DoMac(thread, _, _) => thread !in s.asked
    case DoCommit(thread, _) => thread !in s.asked
  }

  ghost predicate Enabled(p: Parts, s: Sys, e: Step) {
    match e
    case Present(t, _, raw) =>
      && t !in s.asked && t !in s.b.verifying && t !in s.r.calls
      && (p.extract(raw).Some? ==> WellFormed(p.extract(raw).value.0))
    case Settle(t, _, _) => t in s.asked && t in s.b.verifying && t !in s.r.calls
    case Foreign(e) => IsForeign(s, e) && B.Enabled(s.b, e)
    case Route(e) => !e.Arrive? && R.Enabled(s.r, e)
  }

  ghost function AfterPresent(p: Parts, s: Sys, t: nat, operation: string, raw: Json): Sys
    requires s.b.epochs != []
  {
    match p.extract(raw)
    case None => s
    case Some((logical, token)) =>
      var w := Work(operation, logical);
      s.(b := B.AfterMac(p.rules, s.b, t, token, RequestOf(w)), asked := s.asked[t := w])
  }

  const TASK_START := "task.start"

  /** Call `t` enters the router under acceptance `n`, to run what it asked for. */
  ghost function Arrived(s: Sys, t: nat, n: nat): Sys
    requires t in s.asked && n < |s.b.accepted|
  {
    var id := s.b.accepted[n].identity;
    var call := R.Call(id.sessionId, id.bridgeId, s.asked[t].operation == TASK_START, R.Verified, 0, 0);
    s.(carried := s.carried[t := n], r := s.r.(calls := s.r.calls[t := call]))
  }

  /** The call goes on to the router only with an acceptance of its own. */
  ghost function AfterSettle(p: Parts, s: Sys, t: nat, now: int, lost: bool): Sys
    requires s.b.epochs != [] && t in s.b.verifying && t in s.asked
  {
    var b := B.AfterCommit(p.rules, s.b, t, now);
    var s' := s.(b := b);
    if |b.accepted| > |s.b.accepted| && !lost then Arrived(s', t, |s.b.accepted|) else s'
  }

  ghost function AfterRoute(s: Sys, e: R.Step): Sys
    requires R.Enabled(s.r, e)
  {
    var r := R.Apply(s.r, e);
    if e.Begin? && e.t in r.calls && e.t in s.asked
       && r.calls[e.t].pc.Executing? && r.calls[e.t].slot < |r.r.slots| then
      var slot := r.r.slots[r.calls[e.t].slot];
      s.(r := r, log := s.log + [Ran(e.t, slot.session, slot.bridgeId, s.asked[e.t])])
    else s.(r := r)
  }

  ghost function Next(p: Parts, s: Sys, e: Step): Sys
    requires Enabled(p, s, e) && s.b.epochs != []
  {
    match e
    case Present(t, operation, raw) => AfterPresent(p, s, t, operation, raw)
    case Settle(t, now, lost) => AfterSettle(p, s, t, now, lost)
    case Foreign(e) => s.(b := B.Next(p.rules, s.b, e))
    case Route(e) => AfterRoute(s, e)
  }

  // ---------- the invariant ----------

  /** Call `t` carries an acceptance of exactly what it asked for, and keeps its identity. */
  ghost predicate CarriesOk(s: Sys, t: nat) {
    && t in s.carried && t in s.asked && s.carried[t] < |s.b.accepted|
    && var a := s.b.accepted[s.carried[t]];
    && a.request == RequestOf(s.asked[t])
    && t in s.r.calls && s.r.calls[t].session == a.identity.sessionId && s.r.calls[t].bridgeId == a.identity.bridgeId
  }

  ghost predicate CarriedOk(s: Sys) {
    && (forall t :: t in s.r.calls ==> CarriesOk(s, t))
    && (forall t :: t in s.carried ==> t in s.r.calls)
    && (forall t, u :: t in s.carried && u in s.carried && t != u ==> s.carried[t] != s.carried[u])
  }

  ghost predicate AsksOk(s: Sys) {
    forall t :: t in s.b.verifying && t in s.asked ==> s.b.verifying[t].request == RequestOf(s.asked[t])
  }

  ghost predicate RanOk(s: Sys, x: Ran) {
    && x.t in s.r.calls && x.t in s.asked && x.work == s.asked[x.t]
    && s.r.calls[x.t].runs >= 1 && s.r.calls[x.t].session == x.session && s.r.calls[x.t].bridgeId == x.epoch
  }

  ghost predicate LogOk(s: Sys) {
    && (forall n :: 0 <= n < |s.log| ==> RanOk(s, s.log[n]))
    && (forall m, n :: 0 <= m < n < |s.log| ==> s.log[m].t != s.log[n].t)
  }

  ghost predicate Inv(p: Parts, s: Sys) {
    B.Inv(p.rules, s.b) && RI.Inv(s.r) && CarriedOk(s) && AsksOk(s) && LogOk(s)
  }

  // ---------- preservation ----------

  /** A router step keeps every call's identity and never takes a run back. */
  lemma RouteKeeps(r: R.Sys, e: R.Step, t: nat)
    requires R.Enabled(r, e) && !e.Arrive?
    ensures var r' := R.Apply(r, e);
            (t in r'.calls <==> t in r.calls)
            && (t in r.calls ==>
                  r'.calls[t].session == r.calls[t].session && r'.calls[t].bridgeId == r.calls[t].bridgeId
                  && r'.calls[t].runs >= r.calls[t].runs)
  {
  }

  lemma RouteInv(p: Parts, s: Sys, e: R.Step)
    requires Inv(p, s) && R.Enabled(s.r, e) && !e.Arrive? && !e.Begin?
    ensures Inv(p, s.(r := R.Apply(s.r, e)))
  {
    var s' := s.(r := R.Apply(s.r, e));
    RS.StepInv(s.r, e);
    RoutedCalls(s, s', e);
  }

  /** The parts of the invariant about calls survive any router step. */
  lemma RoutedCalls(s: Sys, s': Sys, e: R.Step)
    requires CarriedOk(s) && LogOk(s) && R.Enabled(s.r, e) && !e.Arrive?
    requires s' == s.(r := R.Apply(s.r, e))
    ensures CarriedOk(s') && LogOk(s')
  {
    forall t | t in s'.r.calls ensures CarriesOk(s', t) {
      RouteKeeps(s.r, e, t);
      assert CarriesOk(s, t);
    }
    forall t | t in s'.carried ensures t in s'.r.calls { RouteKeeps(s.r, e, t); }
    forall n | 0 <= n < |s'.log| ensures RanOk(s', s'.log[n]) {
      assert RanOk(s, s.log[n]);
      RouteKeeps(s.r, e, s.log[n].t);
    }
  }

  /** A call that begins has never run before, and begins in a slot of its own session and epoch. */
  lemma BeginRuns(r: R.Sys, t: nat)
    requires RI.Inv(r) && R.Enabled(r, R.Begin(t))
    ensures var r' := R.Apply(r, R.Begin(t));
            && t in r.calls && r.calls[t].runs == 0
            && t in r'.calls && r'.calls[t].pc.Executing? && r'.calls[t].runs == 1 && r'.calls[t].slot < |r'.r.slots|
            && r'.r.slots[r'.calls[t].slot].session == r.calls[t].session
            && r'.r.slots[r'.calls[t].slot].bridgeId == r.calls[t].bridgeId
  {
    RI.BeginInv(r, t);
    assert RI.CallOk(r, t, r.calls[t]);
  }

  lemma LogOne(s: Sys, x: Ran)
    requires CarriedOk(s) && LogOk(s) && RanOk(s, x) && forall n :: 0 <= n < |s.log| ==> s.log[n].t != x.t
    ensures CarriedOk(s.(log := s.log + [x])) && LogOk(s.(log := s.log + [x]))
  {
    var s' := s.(log := s.log + [x]);
    forall n | 0 <= n < |s'.log| ensures RanOk(s', s'.log[n]) {
      if n < |s.log| { assert RanOk(s, s.log[n]); }
    }
    forall u | u in s'.r.calls ensures CarriesOk(s', u) { assert CarriesOk(s, u); }
  }

  lemma NotLogged(s: Sys, t: nat)
    requires LogOk(s) && t in s.r.calls && s.r.calls[t].runs == 0
    ensures forall n :: 0 <= n < |s.log| ==> s.log[n].t != t
  {
    forall n | 0 <= n < |s.log| ensures s.log[n].t != t { assert RanOk(s, s.log[n]); }
  }

  lemma BeginLogged(s: Sys, t: nat)
    requires RI.Inv(s.r) && CarriedOk(s) && LogOk(s) && R.Enabled(s.r, R.Begin(t))
    ensures CarriedOk(AfterRoute(s, R.Begin(t))) && LogOk(AfterRoute(s, R.Begin(t)))
    ensures |AfterRoute(s, R.Begin(t)).log| == |s.log| + 1
  {
    var s1 := s.(r := R.Apply(s.r, R.Begin(t)));
    BeginRuns(s.r, t);
    NotLogged(s, t);
    RoutedCalls(s, s1, R.Begin(t));
    RouteKeeps(s.r, R.Begin(t), t);
    assert CarriesOk(s, t);
    var slot := s1.r.r.slots[s1.r.calls[t].slot];
    LogOne(s1, Ran(t, slot.session, slot.bridgeId, s.asked[t]));
  }

  lemma BeginInv(p: Parts, s: Sys, t: nat)
    requires Inv(p, s) && R.Enabled(s.r, R.Begin(t))
    ensures Inv(p, AfterRoute(s, R.Begin(t)))
  {
    BeginLogged(s, t);
    RI.BeginInv(s.r, t);
  }

  /** Bridge steps only append acceptances. */
  lemma BridgeGrows(p: Parts, s: Sys, b: B.Sys)
    requires CarriedOk(s) && LogOk(s) && s.b.accepted <= b.accepted
    ensures CarriedOk(s.(b := b)) && LogOk(s.(b := b))
  {
    var s' := s.(b := b);
    forall t | t in s'.r.calls ensures CarriesOk(s', t) { assert CarriesOk(s, t); }
    forall n | 0 <= n < |s'.log| ensures RanOk(s', s'.log[n]) { assert RanOk(s, s.log[n]); }
  }

  lemma ForeignAsks(p: Parts, s: Sys, e: B.Step)
    requires AsksOk(s) && s.b.epochs != [] && IsForeign(s, e) && B.Enabled(s.b, e)
    ensures AsksOk(s.(b := B.Next(p.rules, s.b, e)))
  {
  }

  lemma ForeignInv(p: Parts, s: Sys, e: B.Step)
    requires B.Sound(p.rules) && Inv(p, s) && IsForeign(s, e) && B.Enabled(s.b, e)
    ensures s.b.epochs != [] && Inv(p, s.(b := B.Next(p.rules, s.b, e)))
  {
    B.NextInv(p.rules, s.b, e);
    B.StepGrows(p.rules, s.b, e);
    ForeignAsks(p, s, e);
    BridgeGrows(p, s, B.Next(p.rules, s.b, e));
  }

  lemma PresentInv(p: Parts, s: Sys, t: nat, operation: string, raw: Json)
    requires B.Sound(p.rules) && Inv(p, s) && Enabled(p, s, Present(t, operation, raw))
    ensures s.b.epochs != [] && Inv(p, AfterPresent(p, s, t, operation, raw))
  {
    if p.extract(raw).Some? {
      var (logical, token) := p.extract(raw).value;
      var w := Work(operation, logical);
      var e := B.DoMac(t, token, RequestOf(w));
      B.NextInv(p.rules, s.b, e);
      B.StepGrows(p.rules, s.b, e);
      BridgeGrows(p, s, B.Next(p.rules, s.b, e));
      AskedInv(s.(b := B.Next(p.rules, s.b, e)), t, w);
      PresentAsks(p, s, t, w, token);
    }
  }

  lemma PresentAsks(p: Parts, s: Sys, t: nat, w: Work, token: string)
    requires AsksOk(s) && s.b.epochs != [] && t !in s.b.verifying
    ensures AsksOk(s.(b := B.AfterMac(p.rules, s.b, t, token, RequestOf(w)), asked := s.asked[t := w]))
  {
  }

  lemma AskedInv(s: Sys, t: nat, w: Work)
    requires CarriedOk(s) && LogOk(s) && t !in s.asked && t !in s.r.calls
    ensures CarriedOk(s.(asked := s.asked[t := w])) && LogOk(s.(asked := s.asked[t := w]))
  {
    var s' := s.(asked := s.asked[t := w]);
    forall u | u in s'.r.calls ensures CarriesOk(s', u) { assert CarriesOk(s, u); }
    forall n | 0 <= n < |s'.log| ensures RanOk(s', s'.log[n]) { assert RanOk(s, s.log[n]); }
  }

  /** What a commit that accepts adds to the bridge's log. */
  lemma CommitAppends(p: Parts, s: Sys, t: nat, now: int)
    requires t in s.b.verifying && s.b.epochs != []
    ensures var b := B.AfterCommit(p.rules, s.b, t, now);
            && s.b.accepted <= b.accepted
            && (|b.accepted| > |s.b.accepted| ==>
                  |b.accepted| == |s.b.accepted| + 1
                  && b.accepted[|s.b.accepted|].request == s.b.verifying[t].request)
            && b.verifying == s.b.verifying - {t}
  {
  }

  /** An acceptance that is delivered makes a call the router has not seen before. */
  lemma ArrivedCalls(s: Sys, t: nat, n: nat)
    requires CarriedOk(s) && LogOk(s) && t !in s.r.calls && t in s.asked && n < |s.b.accepted|
    requires s.b.accepted[n].request == RequestOf(s.asked[t]) && forall u :: u in s.carried ==> s.carried[u] != n
    ensures CarriedOk(Arrived(s, t, n)) && LogOk(Arrived(s, t, n))
  {
    var s' := Arrived(s, t, n);
    forall u | u in s'.r.calls ensures CarriesOk(s', u) {
      if u != t { assert CarriesOk(s, u); }
    }
    forall m | 0 <= m < |s'.log| ensures RanOk(s', s'.log[m]) { assert RanOk(s, s.log[m]); }
  }

  lemma ArrivedRouter(s: Sys, t: nat, n: nat)
    requires RI.Inv(s.r) && t !in s.r.calls && t in s.asked && n < |s.b.accepted|
    ensures RI.Inv(Arrived(s, t, n).r)
  {
    var id := s.b.accepted[n].identity;
    RI.ArriveInv(s.r, R.Arrive(t, id.sessionId, id.bridgeId, s.asked[t].operation == TASK_START));
  }

  lemma SettleInv(p: Parts, s: Sys, t: nat, now: int, lost: bool)
    requires B.Sound(p.rules) && Inv(p, s) && Enabled(p, s, Settle(t, now, lost))
    ensures Inv(p, AfterSettle(p, s, t, now, lost))
  {
    var b := B.AfterCommit(p.rules, s.b, t, now);
    B.NextInv(p.rules, s.b, B.DoCommit(t, now));
    CommitAppends(p, s, t, now);
    BridgeGrows(p, s, b);
    var s1 := s.(b := b);
    if |b.accepted| > |s.b.accepted| && !lost {
      forall u | u in s1.carried ensures s1.carried[u] != |s.b.accepted| { assert CarriesOk(s, u); }
      ArrivedCalls(s1, t, |s.b.accepted|);
      ArrivedRouter(s1, t, |s.b.accepted|);
    }
  }

  lemma NextInv(p: Parts, s: Sys, e: Step)
    requires B.Sound(p.rules) && Inv(p, s) && Enabled(p, s, e)
    ensures Inv(p, Next(p, s, e))
  {
    match e
    case Present(t, operation, raw) => PresentInv(p, s, t, operation, raw);
    case Settle(t, now, lost) => SettleInv(p, s, t, now, lost);
    case Foreign(e) => ForeignInv(p, s, e);
    case Route(e) => if e.Begin? { BeginInv(p, s, e.t); } else { RouteInv(p, s, e); }
  }

  // ---------- runs ----------

  ghost predicate IsRun(p: Parts, states: seq<Sys>, steps: seq<Step>) {
    && |states| == |steps| + 1
    && (exists secret, id :: states[0] == Sys(B.Init(secret, id), R.Init(), map[], map[], []))
    && forall k :: 0 <= k < |steps| ==>
         states[k].b.epochs != [] && Enabled(p, states[k], steps[k]) && states[k + 1] == Next(p, states[k], steps[k])
  }

  lemma {:induction false} RunInv(p: Parts, states: seq<Sys>, steps: seq<Step>, k: nat)
    requires B.Sound(p.rules) && IsRun(p, states, steps) && k <= |steps|
    ensures Inv(p, states[k])
  {
    if k == 0 {
      RI.InitInv();
    } else {
      RunInv(p, states, steps, k - 1);
      NextInv(p, states[k - 1], steps[k - 1]);
    }
  }

  // ---------- end to end ----------

  /** Two executions never have one (bridge id, nonce) pair between them. */
  lemma AtMostOneExecution(c: Crypto, states: seq<Sys>, steps: seq<Step>, k: nat, m: nat, n: nat)
    requires WellShaped(c) && IsRun(PartsOf(c), states, steps) && k <= |steps| && m < n < |states[k].log|
    ensures var s := states[k];
            var t, u := s.log[m].t, s.log[n].t;
            t in s.carried && u in s.carried && s.carried[t] < |s.b.accepted| && s.carried[u] < |s.b.accepted|
            && var a, b := s.b.accepted[s.carried[t]].identity, s.b.accepted[s.carried[u]].identity;
               a.bridgeId != b.bridgeId || a.nonce != b.nonce
  {
    var p, s := PartsOf(c), states[k];
    B.RulesAreSound(c);
    RunInv(p, states, steps, k);
    assert RanOk(s, s.log[m]) && RanOk(s, s.log[n]);
    assert CarriesOk(s, s.log[m].t) && CarriesOk(s, s.log[n].t);
    var i, j := s.carried[s.log[m].t], s.carried[s.log[n].t];
    DifferentAcceptances(p.rules, s.b, i, j);
  }

  lemma DifferentAcceptances(r: B.Rules, b: B.Sys, i: nat, j: nat)
    requires B.Inv(r, b) && i < |b.accepted| && j < |b.accepted| && i != j
    ensures var x, y := b.accepted[i].identity, b.accepted[j].identity;
            x.bridgeId != y.bridgeId || x.nonce != y.nonce
  {
    assert B.AcceptedOk(r, b, b.accepted[i]) && B.AcceptedOk(r, b, b.accepted[j]);
    assert i < j || j < i;
  }

  /** Execution `x` is of credential `i`: in a slot of the session it was issued for and of the
      epoch it was issued in, with the operation and logical arguments it was issued for -- or
      the two invocations exhibit a digest collision. */
  ghost predicate Executes(c: Crypto, i: B.Issued, x: Ran) {
    && x.session == i.payload.sessionId && x.epoch == i.payload.bridgeId
    && ((x.work.operation == i.request.operation && x.work.arguments == i.request.arguments)
        || Collision(c, InvocationText(x.work.operation, x.work.arguments),
                     InvocationText(i.request.operation, i.request.arguments)))
  }

  /** End to end, over any run of bridge and router steps: whatever is executed was issued.
      Unless the acceptance behind it used a forged MAC, an execution runs in a slot of exactly
      the session and epoch of one issued credential, with exactly its operation and logical
      arguments. */
  lemma ExecutesWhatWasIssued(c: Crypto, states: seq<Sys>, steps: seq<Step>, k: nat, n: nat)
    requires WellShaped(c) && IsRun(PartsOf(c), states, steps) && k <= |steps| && n < |states[k].log|
    ensures var s := states[k];
            var x := s.log[n];
            x.t in s.carried && s.carried[x.t] < |s.b.accepted|
            && var a := s.b.accepted[s.carried[x.t]];
               a.check < |s.b.checked|
               && (B.Forged(c, s.b, a)
                   || exists i :: 0 <= i < |s.b.issued|
                                  && B.Honours(c, s.b.issued[i], a) && Executes(c, s.b.issued[i], x))
  {
    var p, s := PartsOf(c), states[k];
    B.RulesAreSound(c);
    RunInv(p, states, steps, k);
    var x := s.log[n];
    assert RanOk(s, x) && CarriesOk(s, x.t);
    var a := s.b.accepted[s.carried[x.t]];
    assert B.AcceptedOk(p.rules, s.b, a);
    if !B.Forged(c, s.b, a) { ExecutionHonours(c, s.b, a, x); }
  }

  lemma ExecutionHonours(c: Crypto, b: B.Sys, a: B.Accepted, x: Ran)
    requires WellShaped(c) && B.Inv(B.RulesOf(c), b) && B.AcceptedOk(B.RulesOf(c), b, a) && !B.Forged(c, b, a)
    requires x.session == a.identity.sessionId && x.epoch == a.identity.bridgeId && a.request == RequestOf(x.work)
    ensures exists i :: 0 <= i < |b.issued| && B.Honours(c, b.issued[i], a) && Executes(c, b.issued[i], x)
  {
    var i := B.AcceptedHonours(c, b, a);
    assert Executes(c, b.issued[i], x);
  }

  /** So no credential is executed twice. */
  lemma NoCredentialRunsTwice(c: Crypto, states: seq<Sys>, steps: seq<Step>, k: nat, m: nat, n: nat, i: nat)
    requires WellShaped(c) && IsRun(PartsOf(c), states, steps) && k <= |steps| && m < n < |states[k].log|
    requires i < |states[k].b.issued|
    ensures var s := states[k];
            var t, u := s.log[m].t, s.log[n].t;
            t in s.carried && u in s.carried && s.carried[t] < |s.b.accepted| && s.carried[u] < |s.b.accepted|
            && !(B.Honours(c, s.b.issued[i], s.b.accepted[s.carried[t]])
                 && B.Honours(c, s.b.issued[i], s.b.accepted[s.carried[u]]))
  {
    AtMostOneExecution(c, states, steps, k, m, n);
  }
}
