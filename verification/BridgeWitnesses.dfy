/** A run in which an issued credential is accepted: the guarantees about runs are not empty. */
module BridgeWitnesses {
  import opened Wrappers
  import opened Json
  import opened Tokens
  import opened Bridge
  import opened BridgeRuns
  import opened BridgePresentations

  ghost predicate MayIssue(c: Crypto, b: BridgeState, q: IssueRequest) {
    && |q.nonce| == 32 && IsHex(q.nonce) && WellFormed(q.arguments)
    && Issue(c, b, q.session, q.call, q.operation, q.arguments, q.now, q.nonce).Ok?
  }

  function RequestFor(q: IssueRequest): Request { Request(q.operation, q.arguments, Some(q.session), Some(q.call)) }

  lemma Issues(c: Crypto, secret: Secret, id: string, q: IssueRequest)
    requires WellShaped(c) && MayIssue(c, BridgeState(secret, id, {}), q)
    ensures var s := Init(secret, id);
            var s' := Next(RulesOf(c), s, DoIssue(q));
            && |s'.issued| == 1 && s'.issued[0].epoch == 0 && s'.issued[0].request == q
            && IssuePayload(c, s.bridge, q) == Some(s'.issued[0].payload)
            && s' == s.(issued := s'.issued)
  {
    var b := BridgeState(secret, id, {});
    IssuedIsIssuable(c, b, q.session, q.call, q.operation, q.arguments, q.now, q.nonce);
  }

  /** What the three steps of the run find: the issued credential matches its own request. */
  lemma Suits(c: Crypto, b: BridgeState, q: IssueRequest, p: Payload)
    requires WellShaped(c) && MayIssue(c, b, q) && IssuePayload(c, b, q) == Some(p)
    ensures Matches(c, IdentityOf(p), RequestFor(q)) && p.iat == q.now && p.nonce == q.nonce
  {
    IssuedIsIssuable(c, b, q.session, q.call, q.operation, q.arguments, q.now, q.nonce);
  }

  // ---------- reaching a state ----------

  ghost predicate Reaches(r: Rules, n: nat, s: Sys) {
    exists states: seq<Sys>, steps: seq<Step> :: IsRun(r, states, steps) && |steps| == n && states[n] == s
  }

  lemma ReachInit(r: Rules, secret: Secret, id: string)
    ensures Reaches(r, 0, Init(secret, id))
  {
    assert IsRun(r, [Init(secret, id)], []);
  }

  lemma ReachNext(r: Rules, n: nat, s: Sys, e: Step)
    requires Reaches(r, n, s) && s.epochs != [] && Enabled(s, e)
    ensures Reaches(r, n + 1, Next(r, s, e))
  {
    var states: seq<Sys>, steps: seq<Step> :| IsRun(r, states, steps) && |steps| == n && states[n] == s;
    var states', steps' := states + [Next(r, s, e)], steps + [e];
    assert states'[0] == states[0];
    assert IsRun(r, states', steps') && states'[n + 1] == Next(r, s, e);
  }

  lemma ReachInv(r: Rules, n: nat, s: Sys)
    requires Sound(r) && Reaches(r, n, s)
    ensures Inv(r, s)
  {
    var states: seq<Sys>, steps: seq<Step> :| IsRun(r, states, steps) && |steps| == n && states[n] == s;
    RunInv(r, states, steps, n);
  }

  // ---------- issue, check, commit ----------

  /** The credential of `q` is the only one, and thread 0 is verifying it. */
  ghost predicate Checks(s: Sys, q: IssueRequest, request: Request) {
    && |s.issued| == 1 && IsCurrent(s, 0) && s.issued[0].request == q && s.accepted == []
    && 0 in s.verifying && s.verifying[0].request == request
    && s.verifying[0].pending == Pending(s.bridge.bridgeId, PayloadSegment(s.issued[0].payload))
  }

  lemma ReachChecked(c: Crypto, secret: Secret, id: string, q: IssueRequest) returns (s: Sys)
    requires WellShaped(c) && MayIssue(c, BridgeState(secret, id, {}), q)
    ensures Reaches(RulesOf(c), 2, s) && Inv(RulesOf(c), s) && Checks(s, q, RequestFor(q))
    ensures IssuePayload(c, BridgeState(secret, id, {}), q) == Some(s.issued[0].payload)
  {
    var r := RulesOf(c);
    var s1 := Next(r, Init(secret, id), DoIssue(q));
    RulesAreSound(c);
    ReachInit(r, secret, id);
    Issues(c, secret, id, q);
    ReachNext(r, 0, Init(secret, id), DoIssue(q));
    ReachInv(r, 1, s1);
    var e := DoMac(0, TokenOf(c, s1.issued[0]), RequestFor(q));
    MacAdmits(c, s1, 0, 0, RequestFor(q));
    ReachNext(r, 1, s1, e);
    s := Next(r, s1, e);
    ReachInv(r, 2, s);
  }

  lemma Commits(c: Crypto, s: Sys, q: IssueRequest, request: Request, now: int)
    requires WellShaped(c) && Inv(RulesOf(c), s) && Checks(s, q, request) && q.now - 2 <= now <= q.now + 12
    requires Matches(c, IdentityOf(s.issued[0].payload), request) && s.issued[0].payload.iat == q.now
    ensures var s' := AfterCommit(RulesOf(c), s, 0, now);
            && s'.issued == s.issued && |s'.accepted| == 1
            && s'.accepted[0].identity == IdentityOf(s.issued[0].payload)
  {
    CommitSettles(c, s, 0, 0, now, request);
    CommitGrows(RulesOf(c), s, 0, now);
  }

  /** It is an acceptance of just that credential. */
  lemma OnlyOneHonours(c: Crypto, s: Sys)
    requires WellShaped(c) && Inv(RulesOf(c), s) && |s.issued| == 1 && |s.accepted| == 1
    requires s.checked[s.accepted[0].check].segment == PayloadSegment(s.issued[0].payload)
    ensures Honours(c, s.issued[0], s.accepted[0])
  {
    assert AcceptedOk(RulesOf(c), s, s.accepted[0]);
    HonoursIssue(c, s, s.accepted[0], 0);
  }

  lemma CommitChecks(c: Crypto, s: Sys, now: int)
    requires Inv(RulesOf(c), s) && 0 in s.verifying && s.accepted == []
    ensures var s' := AfterCommit(RulesOf(c), s, 0, now);
            |s'.accepted| == 1 ==>
              && s'.checked == s.checked && s'.accepted[0].check < |s'.checked|
              && s'.checked[s'.accepted[0].check].segment == s.verifying[0].pending.segment
  {
    assert VerifyingOk(s, s.verifying[0]);
  }

  /** Whatever the bridge issues is accepted when it is presented for what it was issued for, while
      its window lasts: there is a run that issues it, checks it and commits it. */
  lemma IssuedIsAccepted(c: Crypto, secret: Secret, id: string, q: IssueRequest, now: int)
    requires WellShaped(c) && MayIssue(c, BridgeState(secret, id, {}), q) && q.now - 2 <= now <= q.now + 12
    ensures exists s: Sys ::
              && Reaches(RulesOf(c), 3, s) && |s.issued| == 1 && s.issued[0].request == q
              && |s.accepted| == 1 && Honours(c, s.issued[0], s.accepted[0])
  {
    var s := ReachChecked(c, secret, id, q);
    Suits(c, BridgeState(secret, id, {}), q, s.issued[0].payload);
    Commits(c, s, q, RequestFor(q), now);
    ReachNext(RulesOf(c), 2, s, DoCommit(0, now));
    var s' := AfterCommit(RulesOf(c), s, 0, now);
    RulesAreSound(c);
    ReachInv(RulesOf(c), 3, s');
    CommitChecks(c, s, now);
    OnlyOneHonours(c, s');
  }
}
