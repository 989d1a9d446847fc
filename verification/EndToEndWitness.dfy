/** A run in which an issued credential is presented, accepted, admitted and executed. */
module EndToEndWitness {
  import opened Wrappers
  import opened Json
  import opened Tokens
  import opened Bridge
  import opened EndToEnd
  import BP = BridgePresentations
  import BW = BridgeWitnesses
  import S = RouterSpec

  ghost predicate Reaches(p: Parts, s: Sys) {
    exists states: seq<Sys>, steps: seq<Step> :: IsRun(p, states, steps) && states[|steps|] == s
  }

  function Start(secret: Secret, id: string): Sys { Sys(B.Init(secret, id), R.Init(), map[], map[], []) }

  lemma ReachStart(p: Parts, secret: Secret, id: string)
    ensures Reaches(p, Start(secret, id))
  {
    assert IsRun(p, [Start(secret, id)], []);
  }

  lemma ReachNext(p: Parts, s: Sys, e: Step)
    requires Reaches(p, s) && s.b.epochs != [] && Enabled(p, s, e)
    ensures Reaches(p, Next(p, s, e))
  {
    var states: seq<Sys>, steps: seq<Step> :| IsRun(p, states, steps) && states[|steps|] == s;
    var states', steps' := states + [Next(p, s, e)], steps + [e];
    assert states'[0] == states[0];
    forall k | 0 <= k < |steps'|
      ensures states'[k].b.epochs != [] && Enabled(p, states'[k], steps'[k])
      ensures states'[k + 1] == Next(p, states'[k], steps'[k])
    {
      if k < |steps| { assert states'[k] == states[k] && states'[k + 1] == states[k + 1] && steps'[k] == steps[k]; }
    }
    assert IsRun(p, states', steps');
  }

  // ---------- through the router ----------

  /** Call 0 as it comes to the router. */
  function Arriving(session: string, id: string, isTaskStart: bool): R.Sys {
    R.Init().(calls := map[0 := R.Call(session, id, isTaskStart, R.Verified, 0, 0)])
  }

  function GateOpen(): R.Step { R.Gate(0, true, true, true) }

  function ClearedOf(session: string, id: string, isTaskStart: bool): R.Sys {
    R.Init().(calls := map[0 := R.Call(session, id, isTaskStart, R.Cleared, 0, 0)])
  }

  function AdmittedOf(session: string, id: string, isTaskStart: bool): R.Sys {
    R.Sys(S.Router(false, [S.Entry(session, 0)], [S.Slot(session, id, 1, false, 0, false, None, false)]),
          [R.NewMeta()], map[0 := R.Call(session, id, isTaskStart, R.Admitted, 0, 0)], [], [], None)
  }

  lemma GateLets(session: string, id: string, isTaskStart: bool)
    ensures R.Enabled(Arriving(session, id, isTaskStart), GateOpen())
    ensures R.Apply(Arriving(session, id, isTaskStart), GateOpen()) == ClearedOf(session, id, isTaskStart)
  {
  }

  lemma EnterAdmits(session: string, id: string, isTaskStart: bool)
    ensures R.Enabled(ClearedOf(session, id, isTaskStart), R.Enter(0))
    ensures R.Apply(ClearedOf(session, id, isTaskStart), R.Enter(0)) == AdmittedOf(session, id, isTaskStart)
  {
  }

  lemma BeginExecutes(session: string, id: string, isTaskStart: bool)
    ensures R.Enabled(AdmittedOf(session, id, isTaskStart), R.Begin(0))
    ensures var r := R.Apply(AdmittedOf(session, id, isTaskStart), R.Begin(0));
            && 0 in r.calls && r.calls[0].pc.Executing? && r.calls[0].slot == 0 && |r.r.slots| == 1
            && r.r.slots[0].session == session && r.r.slots[0].bridgeId == id
  {
  }

  /** A call of an empty router goes through gate and admission to its execution. */
  lemma Routed(p: Parts, s: Sys, session: string, id: string, isTaskStart: bool) returns (s': Sys)
    requires Reaches(p, s) && s.b.epochs != [] && s.r == Arriving(session, id, isTaskStart)
    requires 0 in s.asked && s.log == []
    ensures Reaches(p, s') && s'.log == [Ran(0, session, id, s.asked[0])]
  {
    GateLets(session, id, isTaskStart);
    Moves(p, s, GateOpen(), ClearedOf(session, id, isTaskStart));
    EnterAdmits(session, id, isTaskStart);
    var s1 := s.(r := ClearedOf(session, id, isTaskStart));
    Moves(p, s1, R.Enter(0), AdmittedOf(session, id, isTaskStart));
    s' := Executes(p, s.(r := AdmittedOf(session, id, isTaskStart)), session, id, isTaskStart);
  }

  lemma Moves(p: Parts, s: Sys, e: R.Step, r: R.Sys)
    requires Reaches(p, s) && s.b.epochs != [] && R.Enabled(s.r, e) && !e.Arrive? && !e.Begin? && R.Apply(s.r, e) == r
    ensures Reaches(p, s.(r := r))
  {
    ReachNext(p, s, Route(e));
  }

  lemma Executes(p: Parts, s: Sys, session: string, id: string, isTaskStart: bool) returns (s': Sys)
    requires Reaches(p, s) && s.b.epochs != [] && s.r == AdmittedOf(session, id, isTaskStart)
    requires 0 in s.asked && s.log == []
    ensures Reaches(p, s') && s'.log == [Ran(0, session, id, s.asked[0])]
  {
    BeginExecutes(session, id, isTaskStart);
    ReachNext(p, s, Route(R.Begin(0)));
    s' := Next(p, s, Route(R.Begin(0)));
  }

  // ---------- through the bridge ----------

  /** The work is an object with no carrier in it yet, and the bridge issues a credential for it. */
  ghost predicate MayAsk(c: Crypto, secret: Secret, id: string, q: B.IssueRequest) {
    && BW.MayIssue(c, BridgeState(secret, id, {}), q)
    && q.arguments.JObj? && CARRIER_KEY !in Keys(q.arguments.fields)
  }

  function Carried(arguments: Fields, token: string): Json { JObj(Insert(arguments, CARRIER_KEY, Carrier(token))) }

  lemma Issued(c: Crypto, secret: Secret, id: string, q: B.IssueRequest) returns (s: Sys)
    requires WellShaped(c) && MayAsk(c, secret, id, q)
    ensures Reaches(PartsOf(c), s) && s == Start(secret, id).(b := s.b)
    ensures B.Inv(B.RulesOf(c), s.b) && |s.b.issued| == 1 && BP.IsCurrent(s.b, 0) && s.b.issued[0].request == q
    ensures s.b.accepted == [] && s.b.verifying == map[]
    ensures B.IssuePayload(c, BridgeState(secret, id, {}), q) == Some(s.b.issued[0].payload)
  {
    var p := PartsOf(c);
    ReachStart(p, secret, id);
    BW.Issues(c, secret, id, q);
    B.RulesAreSound(c);
    B.InitInv(p.rules, secret, id);
    B.NextInv(p.rules, B.Init(secret, id), B.DoIssue(q));
    ReachNext(p, Start(secret, id), Foreign(B.DoIssue(q)));
    s := Next(p, Start(secret, id), Foreign(B.DoIssue(q)));
  }

  lemma TokenIsText(c: Crypto, i: B.Issued)
    ensures BP.TokenOf(c, i) != ""
  {
  }

  lemma Extracts(c: Crypto, q: B.IssueRequest, token: string)
    requires q.arguments.JObj? && CARRIER_KEY !in Keys(q.arguments.fields) && token != ""
    ensures PartsOf(c).extract(Carried(q.arguments.fields, token)) == Some((q.arguments, token))
  {
    ExtractInserted(q.arguments.fields, token);
  }

  lemma Presented(c: Crypto, s: Sys, q: B.IssueRequest) returns (s': Sys)
    requires WellShaped(c) && Reaches(PartsOf(c), s) && B.Inv(B.RulesOf(c), s.b)
    requires |s.b.issued| == 1 && BP.IsCurrent(s.b, 0) && s.b.issued[0].request == q && s.b.accepted == []
    requires s.asked == map[] && s.b.verifying == map[] && s.r == R.Init() && WellFormed(q.arguments)
    requires q.arguments.JObj? && CARRIER_KEY !in Keys(q.arguments.fields)
    ensures Reaches(PartsOf(c), s') && B.Inv(B.RulesOf(c), s'.b)
    ensures BW.Checks(s'.b, q, Request(q.operation, q.arguments, None, None))
    ensures s'.asked == map[0 := Work(q.operation, q.arguments)]
    ensures s'.r == s.r && s'.log == s.log && s'.carried == s.carried && s'.b.issued == s.b.issued
    ensures s'.b.bridge == s.b.bridge
  {
    var p, token := PartsOf(c), BP.TokenOf(c, s.b.issued[0]);
    var request := Request(q.operation, q.arguments, None, None);
    TokenIsText(c, s.b.issued[0]);
    Extracts(c, q, token);
    BP.MacAdmits(c, s.b, 0, 0, request);
    B.RulesAreSound(c);
    B.NextInv(p.rules, s.b, B.DoMac(0, token, request));
    var e := Present(0, q.operation, Carried(q.arguments.fields, token));
    ReachNext(p, s, e);
    s' := Next(p, s, e);
  }

  lemma Settled(c: Crypto, s: Sys, q: B.IssueRequest, now: int) returns (s': Sys)
    requires WellShaped(c) && Reaches(PartsOf(c), s) && B.Inv(B.RulesOf(c), s.b)
    requires BW.Checks(s.b, q, Request(q.operation, q.arguments, None, None)) && q.now - 2 <= now <= q.now + 12
    requires Matches(c, IdentityOf(s.b.issued[0].payload), Request(q.operation, q.arguments, None, None))
    requires s.b.issued[0].payload.iat == q.now
    requires s.asked == map[0 := Work(q.operation, q.arguments)] && s.r == R.Init()
    ensures Reaches(PartsOf(c), s') && s'.b.epochs != [] && s'.asked == s.asked && s'.log == s.log
    ensures var p := s.b.issued[0].payload;
            s'.r == Arriving(p.sessionId, p.bridgeId, q.operation == TASK_START)
  {
    var p := PartsOf(c);
    BW.Commits(c, s.b, q, Request(q.operation, q.arguments, None, None), now);
    ReachNext(p, s, Settle(0, now, false));
    s' := Next(p, s, Settle(0, now, false));
    B.CommitGrows(p.rules, s.b, 0, now);
  }

  lemma Suits(c: Crypto, b: BridgeState, q: B.IssueRequest, p: Payload)
    requires WellShaped(c) && BW.MayIssue(c, b, q) && B.IssuePayload(c, b, q) == Some(p)
    ensures Matches(c, IdentityOf(p), Request(q.operation, q.arguments, None, None)) && p.iat == q.now
    ensures p.sessionId == q.session && p.bridgeId == b.bridgeId
  {
    IssuedIsIssuable(c, b, q.session, q.call, q.operation, q.arguments, q.now, q.nonce);
  }

  /** Whatever the bridge issues can be executed: for every session, operation and arguments it
      issues a credential for, there is a run of bridge and router in which a call that presents it
      within its window executes exactly that work, in a slot of that session and epoch. */
  lemma IssuedIsExecuted(c: Crypto, secret: Secret, id: string, q: B.IssueRequest, now: int)
    requires WellShaped(c) && MayAsk(c, secret, id, q) && q.now - 2 <= now <= q.now + 12
    ensures exists s: Sys ::
              Reaches(PartsOf(c), s) && s.log == [Ran(0, q.session, id, Work(q.operation, q.arguments))]
  {
    var s1 := Issued(c, secret, id, q);
    Suits(c, BridgeState(secret, id, {}), q, s1.b.issued[0].payload);
    var s2 := Presented(c, s1, q);
    var s3 := Settled(c, s2, q, now);
    var s4 := Routed(PartsOf(c), s3, q.session, id, q.operation == TASK_START);
  }
}
