/** Presenting a credential again: what earlier presentations cost. */
module BridgePresentations {
  import opened Wrappers
  import opened Tokens
  import opened Bridge
  import opened BridgeRuns

  /** A nonce accepted in the epoch in force. */
  ghost predicate Spent(s: Sys, nonce: string) {
    exists i :: 0 <= i < |s.accepted| && s.accepted[i].epoch == s.Current() && s.accepted[i].identity.nonce == nonce
  }

  /** Credential `k` was issued in the epoch in force. */
  ghost predicate IsCurrent(s: Sys, k: nat) { k < |s.issued| && s.issued[k].epoch == s.Current() }

  ghost function TokenOf(c: Crypto, i: Issued): string { TokenFor(c, i.state.secret, i.payload) }

  lemma IssuedFacts(c: Crypto, s: Sys, k: nat)
    requires WellShaped(c) && Inv(RulesOf(c), s) && IsCurrent(s, k)
    ensures var i := s.issued[k];
            && IsIssuable(i.payload) && |Utf8.Encode(TokenOf(c, i))| <= TOKEN_MAX_BYTES
            && i.payload.bridgeId == s.bridge.bridgeId && i.state.secret == s.bridge.secret
  {
    var i := s.issued[k];
    var q := i.request;
    assert IssuedOk(RulesOf(c), s, i);
    assert IssuePayload(c, i.state, q) == Some(i.payload);
    IssuedIsIssuable(c, i.state, q.session, q.call, q.operation, q.arguments, q.now, q.nonce);
  }

  /** In its epoch a credential always passes the first section. */
  lemma MacAdmits(c: Crypto, s: Sys, k: nat, t: nat, request: Request)
    requires WellShaped(c) && Inv(RulesOf(c), s) && IsCurrent(s, k)
    requires Enabled(s, DoMac(t, TokenOf(c, s.issued[k]), request))
    ensures var s' := Next(RulesOf(c), s, DoMac(t, TokenOf(c, s.issued[k]), request));
            && t in s'.verifying && s'.verifying[t].request == request
            && s'.verifying[t].pending == Pending(s.bridge.bridgeId, PayloadSegment(s.issued[k].payload))
            && s'.bridge == s.bridge && s'.accepted == s.accepted && s'.epochs == s.epochs && s'.issued == s.issued
  {
    IssuedFacts(c, s, k);
    CheckIssuedMac(c, s.bridge, s.issued[k].payload);
  }

  lemma SpentIsConsumed(r: Rules, s: Sys, nonce: string)
    requires Inv(r, s)
    ensures Spent(s, nonce) <==> nonce in s.bridge.consumed
  {
    assert nonce in AcceptedNonces(s.accepted, s.Current()) <==> Spent(s, nonce);
  }

  /** What the middle of a verify finds in a credential. */
  lemma IdentityFound(c: Crypto, s: Sys, k: nat, now: int, request: Request)
    requires WellShaped(c) && Inv(RulesOf(c), s) && IsCurrent(s, k)
    ensures var p := s.issued[k].payload;
            RulesOf(c).identity(Pending(s.bridge.bridgeId, PayloadSegment(p)), now, request)
            == if InWindow(p.iat, now) && Matches(c, IdentityOf(p), request) then Some(IdentityOf(p)) else None
  {
    var p := s.issued[k].payload;
    IssuedFacts(c, s, k);
    CheckIssuedPayload(c, p, s.bridge.bridgeId, now, request);
    CheckRequestExact(c, IdentityOf(p), request);
  }

  lemma CommitDecides(r: Rules, s: Sys, t: nat, now: int, p: Payload)
    requires Inv(r, s) && t in s.verifying && s.verifying[t].pending.bridgeId == s.bridge.bridgeId
    requires r.identity(s.verifying[t].pending, now, s.verifying[t].request) in {None, Some(IdentityOf(p))}
    ensures var v, s' := s.verifying[t], AfterCommit(r, s, t, now);
            var found := r.identity(v.pending, now, v.request);
            if found.Some? && !Spent(s, p.nonce) then
              s'.accepted == s.accepted + [Accepted(IdentityOf(p), s.Current(), v.check, now, v.request)]
            else s'.accepted == s.accepted && s'.bridge == s.bridge
  {
    SpentIsConsumed(r, s, p.nonce);
  }

  /** No step between a thread's two sections disturbs what it is verifying. */
  lemma {:induction false} Waits(r: Rules, states: seq<Sys>, steps: seq<Step>, j: nat, m: nat, t: nat)
    requires Sound(r) && IsRun(r, states, steps) && j <= m <= |steps| && t in states[j].verifying
    requires forall n :: j <= n < m ==> !steps[n].DoRotate? && !(steps[n].DoCommit? && steps[n].thread == t)
    ensures t in states[m].verifying && states[m].verifying[t] == states[j].verifying[t]
    ensures states[m].epochs == states[j].epochs && states[j].issued <= states[m].issued
    ensures states[m].bridge.bridgeId == states[j].bridge.bridgeId
  {
    if j < m {
      Waits(r, states, steps, j, m - 1, t);
      RunInv(r, states, steps, m - 1);
      StepGrows(r, states[m - 1], steps[m - 1]);
      WaitsOne(r, states[m - 1], steps[m - 1], t);
    }
  }

  lemma WaitsOne(r: Rules, s: Sys, step: Step, t: nat)
    requires s.epochs != [] && Enabled(s, step) && t in s.verifying
    requires !step.DoRotate? && !(step.DoCommit? && step.thread == t)
    ensures var s' := Next(r, s, step);
            && t in s'.verifying && s'.verifying[t] == s.verifying[t] && s'.epochs == s.epochs
            && s'.bridge.bridgeId == s.bridge.bridgeId
  {
  }

  /** Exactly one acceptance is added, of this credential for this request, if its nonce is unspent,
      the clock is in its window and the request matches; otherwise the bridge is as it was. */
  ghost predicate Settles(c: Crypto, s: Sys, s': Sys, p: Payload, now: int, request: Request) {
    if !Spent(s, p.nonce) && InWindow(p.iat, now) && Matches(c, IdentityOf(p), request) then
      |s'.accepted| == |s.accepted| + 1 && s.accepted <= s'.accepted
      && s'.accepted[|s.accepted|].identity == IdentityOf(p) && s'.accepted[|s.accepted|].request == request
    else s'.accepted == s.accepted && s'.bridge == s.bridge
  }

  lemma CommitSettles(c: Crypto, s: Sys, k: nat, t: nat, now: int, request: Request)
    requires WellShaped(c) && Inv(RulesOf(c), s) && IsCurrent(s, k) && t in s.verifying
    requires s.verifying[t].request == request
    requires s.verifying[t].pending == Pending(s.bridge.bridgeId, PayloadSegment(s.issued[k].payload))
    ensures Settles(c, s, AfterCommit(RulesOf(c), s, t, now), s.issued[k].payload, now, request)
  {
    IdentityFound(c, s, k, now, request);
    CommitDecides(RulesOf(c), s, t, now, s.issued[k].payload);
  }

  /** A presented credential reaches its second section as it left the first. */
  lemma Arrives(c: Crypto, states: seq<Sys>, steps: seq<Step>, j: nat, m: nat, k: nat, t: nat, request: Request)
    requires WellShaped(c) && IsRun(RulesOf(c), states, steps) && j < m < |steps| && IsCurrent(states[j], k)
    requires steps[j] == DoMac(t, TokenOf(c, states[j].issued[k]), request)
    requires forall n :: j < n < m ==> !steps[n].DoRotate? && !(steps[n].DoCommit? && steps[n].thread == t)
    ensures IsCurrent(states[m], k) && states[m].issued[k] == states[j].issued[k]
    ensures t in states[m].verifying && states[m].verifying[t].request == request
    ensures states[m].verifying[t].pending
         == Pending(states[m].bridge.bridgeId, PayloadSegment(states[j].issued[k].payload))
  {
    RulesAreSound(c);
    RunInv(RulesOf(c), states, steps, j);
    MacAdmits(c, states[j], k, t, request);
    Waits(RulesOf(c), states, steps, j + 1, m, t);
  }

  lemma CommitIsNext(c: Crypto, states: seq<Sys>, steps: seq<Step>, m: nat, t: nat, now: int)
    requires IsRun(RulesOf(c), states, steps) && m < |steps| && steps[m] == DoCommit(t, now)
    ensures t in states[m].verifying && states[m].epochs != []
    ensures states[m + 1] == AfterCommit(RulesOf(c), states[m], t, now)
  {
  }

  /** Failed presentations cost a credential nothing.  Take any run, whatever was presented in it
      before, too early or for the wrong arguments or by whom; and let a thread present credential
      `k` in its epoch and commit later in that epoch, with anything in between.  It is accepted if
      and only if its nonce has not been accepted in the epoch by then, the clock is in its window
      and the request matches.  Otherwise nothing changes. */
  lemma StillAccepted(c: Crypto, states: seq<Sys>, steps: seq<Step>, j: nat, m: nat, k: nat, t: nat, now: int,
                      request: Request)
    requires WellShaped(c) && IsRun(RulesOf(c), states, steps) && j < m < |steps| && IsCurrent(states[j], k)
    requires steps[j] == DoMac(t, TokenOf(c, states[j].issued[k]), request) && steps[m] == DoCommit(t, now)
    requires forall n :: j < n < m ==> !steps[n].DoRotate? && !(steps[n].DoCommit? && steps[n].thread == t)
    ensures Settles(c, states[m], states[m + 1], states[j].issued[k].payload, now, request)
  {
    CommitIsNext(c, states, steps, m, t, now);
    Arrives(c, states, steps, j, m, k, t, request);
    RulesAreSound(c);
    RunInv(RulesOf(c), states, steps, m);
    CommitSettles(c, states[m], k, t, now, request);
  }
}
