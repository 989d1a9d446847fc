/** Every interleaving of issue, the two sections of verify, and rotate. */
module BridgeRuns {
  import opened Wrappers
  import opened Json
  import opened Tokens
  import opened Bridge

  // History kept beside the bridge's own three fields: which epochs there were, which
  // credentials were issued, which tokens passed the MAC section, and which verifies succeeded.
  datatype Epoch = Epoch(secret: Secret, id: string)
  datatype Issued = Issued(epoch: nat, payload: Payload, state: BridgeState, request: IssueRequest)
  datatype Checked = Checked(state: BridgeState, token: string, segment: string, issuedBefore: nat)
  datatype Verifying = Verifying(pending: Pending, request: Request, epoch: nat, check: nat)
  datatype Accepted = Accepted(identity: Identity, epoch: nat, check: nat, now: int, request: Request)

  datatype Sys = Sys(
    bridge: BridgeState, verifying: map<nat, Verifying>,
    epochs: seq<Epoch>, issued: seq<Issued>, checked: seq<Checked>, accepted: seq<Accepted>)
  {
    function Current(): int { |epochs| - 1 }
  }

  /** The bridge's three computations as a run uses them: the payload of the credential an
      issue hands out, the segment whose MAC the first section of a verify accepts, and the
      identity its lock-free middle accepts.  The machine is stated over these so that its
      invariants do not depend on how they are computed; `RulesOf` gives the bridge's own. */
  datatype Rules = Rules(
    issue: (BridgeState, IssueRequest) -> Option<Payload>,
    mac: (BridgeState, string) -> Option<string>,
    identity: (Pending, int, Request) -> Option<Identity>)

  datatype IssueRequest = IssueRequest(
    session: string, call: string, operation: string, arguments: Json, now: int, nonce: string)

  function IssuePayload(c: Crypto, b: BridgeState, q: IssueRequest): Option<Payload> {
    match (Issue(c, b, q.session, q.call, q.operation, q.arguments, q.now, q.nonce),
           InvocationDigest(c, q.operation, q.arguments))
    case (Ok(_), Ok(sha)) => Some(IssuedPayload(c, b, q.session, q.call, sha, q.now, q.nonce))
    case _ => None
  }

  function OkOf<T>(r: Result<T, Code>): Option<T> { if r.Ok? then Some(r.value) else None }

  function RulesOf(c: Crypto): Rules {
    Rules((b, q) => IssuePayload(c, b, q),
          (b, token) => var r := CheckMac(c, b, token); if r.Ok? then Some(r.value.segment) else None,
          (pending, now, request) => OkOf(CheckPayload(c, pending, now, request)))
  }

  /** What the machine needs of its rules. */
  ghost predicate Sound(r: Rules) {
    && (forall b, q :: r.issue(b, q).Some? ==>
          r.issue(b, q).value.bridgeId == b.bridgeId)
    && (forall p, now, request :: r.identity(p, now, request).Some? ==>
          r.identity(p, now, request).value.bridgeId == p.bridgeId)
  }

  datatype Step =
    | DoIssue(q: IssueRequest)
    | DoMac(thread: nat, token: string, request: Request)
    | DoCommit(thread: nat, now: int)
    | DoRotate(secret: Secret, id: string)

  function Init(secret: Secret, id: string): Sys {
    Sys(BridgeState(secret, id, {}), map[], [Epoch(secret, id)], [], [], [])
  }

  /** Random values are fresh or well shaped, a thread verifies one token at a time, and
      arguments are JSON values. */
  ghost predicate Enabled(s: Sys, step: Step) {
    match step
    case DoIssue(q) => |q.nonce| == 32 && IsHex(q.nonce) && WellFormed(q.arguments)
    case DoMac(thread, _, request) => thread !in s.verifying && WellFormed(request.arguments)
    case DoCommit(thread, _) => thread in s.verifying
    case DoRotate(_, id) => forall e :: 0 <= e < |s.epochs| ==> s.epochs[e].id != id
  }

  ghost function AfterIssue(r: Rules, s: Sys, q: IssueRequest): Sys
    requires s.epochs != []
  {
    match r.issue(s.bridge, q)
    case None => s
    case Some(payload) => s.(issued := s.issued + [Issued(s.Current(), payload, s.bridge, q)])
  }

  ghost function AfterMac(r: Rules, s: Sys, thread: nat, token: string, request: Request): Sys
    requires s.epochs != []
  {
    match r.mac(s.bridge, token)
    case None => s
    case Some(segment) =>
      var v := Verifying(Pending(s.bridge.bridgeId, segment), request, s.Current(), |s.checked|);
      s.(verifying := s.verifying[thread := v],
         checked := s.checked + [Checked(s.bridge, token, segment, |s.issued|)])
  }

  ghost function AfterCommit(r: Rules, s: Sys, thread: nat, now: int): Sys
    requires thread in s.verifying && s.epochs != []
  {
    var v := s.verifying[thread];
    var s' := s.(verifying := s.verifying - {thread});
    match r.identity(v.pending, now, v.request)
    case None => s'
    case Some(identity) =>
      var (bridge, outcome) := Commit(s.bridge, v.pending, identity);
      if outcome.Ok? then
        s'.(bridge := bridge, accepted := s.accepted + [Accepted(identity, s.Current(), v.check, now, v.request)])
      else s'.(bridge := bridge)
  }

  ghost function Next(r: Rules, s: Sys, step: Step): Sys
    requires Enabled(s, step) && s.epochs != []
  {
    match step
    case DoIssue(q) => AfterIssue(r, s, q)
    case DoMac(thread, token, request) => AfterMac(r, s, thread, token, request)
    case DoCommit(thread, now) => AfterCommit(r, s, thread, now)
    case DoRotate(secret, id) =>
      s.(bridge := BridgeState(secret, id, {}), epochs := s.epochs + [Epoch(secret, id)])
  }

  // ---------- invariant ----------

  ghost predicate EpochsOk(s: Sys) {
    && s.epochs != []
    && s.bridge.secret == s.epochs[s.Current()].secret && s.bridge.bridgeId == s.epochs[s.Current()].id
    && forall i, j :: 0 <= i < j < |s.epochs| ==> s.epochs[i].id != s.epochs[j].id
  }

  ghost predicate VerifyingOk(s: Sys, v: Verifying) {
    && v.epoch < |s.epochs| && v.pending.bridgeId == s.epochs[v.epoch].id
    && v.check < |s.checked| && s.checked[v.check].segment == v.pending.segment
    && s.checked[v.check].state.secret == s.epochs[v.epoch].secret
    && WellFormed(v.request.arguments)
  }

  ghost predicate CheckedOk(r: Rules, s: Sys, k: Checked) {
    k.issuedBefore <= |s.issued| && r.mac(k.state, k.token) == Some(k.segment)
  }

  ghost predicate IssuedOk(r: Rules, s: Sys, i: Issued) {
    && i.epoch < |s.epochs| && i.state.bridgeId == s.epochs[i.epoch].id && i.state.secret == s.epochs[i.epoch].secret
    && r.issue(i.state, i.request) == Some(i.payload) && i.payload.bridgeId == i.state.bridgeId
    && |i.request.nonce| == 32 && IsHex(i.request.nonce) && WellFormed(i.request.arguments)
  }

  ghost predicate AcceptedOk(r: Rules, s: Sys, a: Accepted) {
    && a.epoch < |s.epochs| && a.identity.bridgeId == s.epochs[a.epoch].id
    && a.check < |s.checked|
    && s.checked[a.check].state.secret == s.epochs[a.epoch].secret
    && r.identity(Pending(a.identity.bridgeId, s.checked[a.check].segment), a.now, a.request) == Some(a.identity)
    && WellFormed(a.request.arguments)
  }

  /** Nonces accepted in one epoch, and how many acceptances there were. */
  ghost function AcceptedNonces(accepted: seq<Accepted>, epoch: int): set<string> {
    set i | 0 <= i < |accepted| && accepted[i].epoch == epoch :: accepted[i].identity.nonce
  }

  function CountAccepted(accepted: seq<Accepted>, epoch: int): nat {
    if accepted == [] then 0
    else CountAccepted(accepted[..|accepted| - 1], epoch)
         + if accepted[|accepted| - 1].epoch == epoch then 1 else 0
  }

  ghost predicate SingleUse(accepted: seq<Accepted>) {
    forall i, j :: 0 <= i < j < |accepted| ==>
      accepted[i].epoch != accepted[j].epoch || accepted[i].identity.nonce != accepted[j].identity.nonce
  }

  /** The consumed set is exactly the nonces accepted since the last rotation, one for each. */
  ghost predicate LogOk(consumed: set<string>, accepted: seq<Accepted>, epoch: int) {
    && SingleUse(accepted)
    && consumed == AcceptedNonces(accepted, epoch)
    && |consumed| == CountAccepted(accepted, epoch)
  }

  ghost predicate Core(r: Rules, s: Sys) {
    && EpochsOk(s)
    && (forall t :: t in s.verifying ==> VerifyingOk(s, s.verifying[t]))
    && (forall k :: 0 <= k < |s.issued| ==> IssuedOk(r, s, s.issued[k]))
    && (forall k :: 0 <= k < |s.checked| ==> CheckedOk(r, s, s.checked[k]))
    && (forall k :: 0 <= k < |s.accepted| ==> AcceptedOk(r, s, s.accepted[k]))
  }

  ghost predicate Inv(r: Rules, s: Sys) {
    Core(r, s) && LogOk(s.bridge.consumed, s.accepted, s.Current())
  }

  lemma InitInv(r: Rules, secret: Secret, id: string)
    ensures Inv(r, Init(secret, id))
  {
  }

  lemma {:induction false} NoneAccepted(accepted: seq<Accepted>, epoch: int)
    requires forall k :: 0 <= k < |accepted| ==> accepted[k].epoch < epoch
    ensures CountAccepted(accepted, epoch) == 0 && AcceptedNonces(accepted, epoch) == {}
  {
    if accepted != [] { NoneAccepted(accepted[..|accepted| - 1], epoch); }
  }

  /** Extending the history keeps what was recorded. */
  lemma KeptOk(r: Rules, s: Sys, s': Sys)
    requires Core(r, s) && s.epochs <= s'.epochs && s.issued <= s'.issued && s.checked <= s'.checked
    ensures forall t :: t in s.verifying ==> VerifyingOk(s', s.verifying[t])
    ensures forall k :: 0 <= k < |s.issued| ==> IssuedOk(r, s', s'.issued[k])
    ensures forall k :: 0 <= k < |s.checked| ==> CheckedOk(r, s', s'.checked[k])
    ensures forall k :: 0 <= k < |s.accepted| ==> AcceptedOk(r, s', s.accepted[k])
  {
    forall t | t in s.verifying ensures VerifyingOk(s', s.verifying[t]) { assert VerifyingOk(s, s.verifying[t]); }
    forall k | 0 <= k < |s.issued| ensures IssuedOk(r, s', s'.issued[k]) {
      assert IssuedOk(r, s, s.issued[k]) && s'.issued[k] == s.issued[k];
    }
    forall k | 0 <= k < |s.checked| ensures CheckedOk(r, s', s'.checked[k]) {
      assert CheckedOk(r, s, s.checked[k]) && s'.checked[k] == s.checked[k];
    }
    forall k | 0 <= k < |s.accepted| ensures AcceptedOk(r, s', s.accepted[k]) {
      assert AcceptedOk(r, s, s.accepted[k]);
    }
  }

  lemma RotateInv(r: Rules, s: Sys, step: Step)
    requires Inv(r, s) && step.DoRotate? && Enabled(s, step)
    ensures Inv(r, Next(r, s, step))
  {
    NoneAccepted(s.accepted, |s.epochs|);
    KeptOk(r, s, Next(r, s, step));
  }

  lemma IssueInv(r: Rules, s: Sys, step: Step)
    requires Sound(r) && Inv(r, s) && step.DoIssue? && Enabled(s, step)
    ensures Inv(r, Next(r, s, step))
  {
    KeptOk(r, s, Next(r, s, step));
  }

  lemma MacInv(r: Rules, s: Sys, step: Step)
    requires Inv(r, s) && step.DoMac? && Enabled(s, step)
    ensures Inv(r, Next(r, s, step))
  {
    KeptOk(r, s, Next(r, s, step));
  }

  lemma NoncesGrow(accepted: seq<Accepted>, a: Accepted)
    ensures AcceptedNonces(accepted + [a], a.epoch) == AcceptedNonces(accepted, a.epoch) + {a.identity.nonce}
  {
    var all := accepted + [a];
    forall n | n in AcceptedNonces(accepted, a.epoch)
      ensures n in AcceptedNonces(all, a.epoch)
    {
      var i :| 0 <= i < |accepted| && accepted[i].epoch == a.epoch && accepted[i].identity.nonce == n;
      assert all[i] == accepted[i];
    }
    assert all[|accepted|] == a;
  }

  lemma AcceptOne(consumed: set<string>, accepted: seq<Accepted>, a: Accepted)
    requires LogOk(consumed, accepted, a.epoch) && a.identity.nonce !in consumed
    ensures LogOk(consumed + {a.identity.nonce}, accepted + [a], a.epoch)
  {
    var all := accepted + [a];
    assert all[..|all| - 1] == accepted;
    forall i | 0 <= i < |accepted|
      ensures all[i].epoch != a.epoch || all[i].identity.nonce != a.identity.nonce
    {
      assert accepted[i].epoch == a.epoch ==> accepted[i].identity.nonce in AcceptedNonces(accepted, a.epoch);
    }
    NoncesGrow(accepted, a);
  }

  ghost function Accept(s: Sys, thread: nat, a: Accepted): Sys {
    s.(verifying := s.verifying - {thread},
       bridge := s.bridge.(consumed := s.bridge.consumed + {a.identity.nonce}),
       accepted := s.accepted + [a])
  }

  lemma AcceptCore(r: Rules, s: Sys, thread: nat, a: Accepted)
    requires Core(r, s) && AcceptedOk(r, s, a)
    ensures Core(r, Accept(s, thread, a))
  {
  }

  lemma DropCore(r: Rules, s: Sys, thread: nat)
    requires Core(r, s)
    ensures Core(r, s.(verifying := s.verifying - {thread}))
  {
  }

  /** A verify that commits in an epoch was checked in that same epoch. */
  lemma CommittedIsAccepted(r: Rules, s: Sys, thread: nat, now: int, identity: Identity)
    requires Sound(r) && Core(r, s) && thread in s.verifying
    requires r.identity(s.verifying[thread].pending, now, s.verifying[thread].request) == Some(identity)
    requires Commit(s.bridge, s.verifying[thread].pending, identity).1.Ok?
    ensures var v := s.verifying[thread];
            var a := Accepted(identity, s.Current(), v.check, now, v.request);
            AcceptedOk(r, s, a) && AfterCommit(r, s, thread, now) == Accept(s, thread, a)
            && identity.nonce !in s.bridge.consumed
  {
    var v := s.verifying[thread];
    assert VerifyingOk(s, v);
    assert v.epoch == s.Current();
  }

  lemma AcceptInv(r: Rules, s: Sys, thread: nat, a: Accepted)
    requires Inv(r, s) && AcceptedOk(r, s, a) && a.epoch == s.Current()
    requires a.identity.nonce !in s.bridge.consumed
    ensures Inv(r, Accept(s, thread, a))
  {
    AcceptCore(r, s, thread, a);
    AcceptOne(s.bridge.consumed, s.accepted, a);
  }

  lemma DropInv(r: Rules, s: Sys, thread: nat)
    requires Inv(r, s)
    ensures Inv(r, s.(verifying := s.verifying - {thread}))
  {
    DropCore(r, s, thread);
  }

  lemma CommitInv(r: Rules, s: Sys, thread: nat, now: int)
    requires Sound(r) && Inv(r, s) && thread in s.verifying
    ensures Inv(r, AfterCommit(r, s, thread, now))
  {
    var v := s.verifying[thread];
    var identity := r.identity(v.pending, now, v.request);
    if identity.Some? && Commit(s.bridge, v.pending, identity.value).1.Ok? {
      CommittedIsAccepted(r, s, thread, now, identity.value);
      AcceptInv(r, s, thread, Accepted(identity.value, s.Current(), v.check, now, v.request));
    } else {
      DropInv(r, s, thread);
      assert AfterCommit(r, s, thread, now) == s.(verifying := s.verifying - {thread});
    }
  }

  lemma NextInv(r: Rules, s: Sys, step: Step)
    requires Sound(r) && Inv(r, s) && Enabled(s, step)
    ensures Inv(r, Next(r, s, step))
  {
    match step
    case DoIssue(_) => IssueInv(r, s, step);
    case DoMac(_, _, _) => MacInv(r, s, step);
    case DoCommit(thread, now) => CommitInv(r, s, thread, now);
    case DoRotate(_, _) => RotateInv(r, s, step);
  }

  // ---------- runs ----------

  /** `states` is the history of a run that takes `steps` from a fresh bridge. */
  ghost predicate IsRun(r: Rules, states: seq<Sys>, steps: seq<Step>) {
    && |states| == |steps| + 1
    && (exists secret, id :: states[0] == Init(secret, id))
    && forall k :: 0 <= k < |steps| ==>
         states[k].epochs != [] && Enabled(states[k], steps[k]) && states[k + 1] == Next(r, states[k], steps[k])
  }

  lemma {:induction false} RunInv(r: Rules, states: seq<Sys>, steps: seq<Step>, k: nat)
    requires Sound(r) && IsRun(r, states, steps) && k <= |steps|
    ensures Inv(r, states[k])
  {
    if k > 0 {
      RunInv(r, states, steps, k - 1);
      NextInv(r, states[k - 1], steps[k - 1]);
    }
  }

  /** No (bridge id, nonce) pair is ever accepted twice, rotations included. */
  lemma OneTimeUse(r: Rules, states: seq<Sys>, steps: seq<Step>, k: nat, i: nat, j: nat)
    requires Sound(r) && IsRun(r, states, steps) && k <= |steps|
    requires i < j < |states[k].accepted|
    ensures var a, b := states[k].accepted[i].identity, states[k].accepted[j].identity;
            a.bridgeId != b.bridgeId || a.nonce != b.nonce
  {
    RunInv(r, states, steps, k);
    assert AcceptedOk(r, states[k], states[k].accepted[i]) && AcceptedOk(r, states[k], states[k].accepted[j]);
  }

  lemma StepGrows(r: Rules, s: Sys, step: Step)
    requires s.epochs != [] && Enabled(s, step)
    ensures var s' := Next(r, s, step);
            && s.epochs <= s'.epochs && s.accepted <= s'.accepted && s.issued <= s'.issued
            && forall i :: |s.accepted| <= i < |s'.accepted| ==> s'.accepted[i].epoch == s.Current()
  {
    if step.DoCommit? { CommitGrows(r, s, step.thread, step.now); }
  }

  lemma CommitGrows(r: Rules, s: Sys, thread: nat, now: int)
    requires s.epochs != [] && thread in s.verifying
    ensures var s' := AfterCommit(r, s, thread, now);
            && s'.epochs == s.epochs && s'.issued == s.issued && s.accepted <= s'.accepted
            && forall i :: |s.accepted| <= i < |s'.accepted| ==> s'.accepted[i].epoch == s.Current()
  {
  }

  lemma {:induction false} RunGrows(r: Rules, states: seq<Sys>, steps: seq<Step>, k: nat, m: nat)
    requires Sound(r) && IsRun(r, states, steps) && k <= m <= |steps|
    ensures Grows(states[k], states[m])
  {
    if k < m {
      RunGrows(r, states, steps, k, m - 1);
      StepGrows(r, states[m - 1], steps[m - 1]);
      GrowsOn(states[k], states[m - 1], states[m]);
    }
  }

  /** What is accepted after `s` is accepted in an epoch no older. */
  ghost predicate Grows(s: Sys, s': Sys) {
    && s.epochs <= s'.epochs && s.accepted <= s'.accepted
    && forall i :: |s.accepted| <= i < |s'.accepted| ==> s'.accepted[i].epoch >= s.Current()
  }

  lemma GrowsOn(a: Sys, b: Sys, c: Sys)
    requires Grows(a, b) && b.epochs <= c.epochs && b.accepted <= c.accepted
    requires forall i :: |b.accepted| <= i < |c.accepted| ==> c.accepted[i].epoch == b.Current()
    ensures Grows(a, c)
  {
    forall i | |a.accepted| <= i < |c.accepted| ensures c.accepted[i].epoch >= a.Current() {
      if i < |b.accepted| { assert c.accepted[i] == b.accepted[i]; }
    }
  }

  /** Rotation is a barrier.  Whatever is accepted after state `k` carries the id of an epoch
      no older than the one in force at `k`, whenever its verify began: a credential of an
      epoch that rotation has ended is never accepted again. */
  lemma RotationBarrier(r: Rules, states: seq<Sys>, steps: seq<Step>, k: nat, m: nat, i: nat, past: nat)
    requires Sound(r) && IsRun(r, states, steps) && k <= m <= |steps|
    requires |states[k].accepted| <= i < |states[m].accepted|
    requires past < states[k].Current()
    ensures states[m].accepted[i].identity.bridgeId != states[k].epochs[past].id
  {
    RunGrows(r, states, steps, k, m);
    RunInv(r, states, steps, m);
    var a := states[m].accepted[i];
    assert AcceptedOk(r, states[m], a);
    assert states[m].epochs[past] == states[k].epochs[past];
  }

  /** Somebody without the secret made the right MAC: the token behind this acceptance carries the
      MAC, under the secret of the epoch it was accepted in, of a segment that no issue under that
      secret had produced before. */
  ghost predicate Forged(c: Crypto, s: Sys, a: Accepted)
    requires a.check < |s.checked|
  {
    var check := s.checked[a.check];
    && a.epoch < |s.epochs| && var secret := s.epochs[a.epoch].secret;
    && Presents(check.token, check.segment, Seal(c, secret, check.segment))
    && forall k :: 0 <= k < |s.issued| && k < check.issuedBefore ==>
         !(s.issued[k].state.secret == secret && PayloadSegment(s.issued[k].payload) == check.segment)
  }

  /** Every acceptance in a run was of a token with the right MAC. */
  lemma AcceptedIsSealed(c: Crypto, s: Sys, a: Accepted)
    requires Inv(RulesOf(c), s) && AcceptedOk(RulesOf(c), s, a)
    ensures var check := s.checked[a.check];
            Presents(check.token, check.segment, Seal(c, s.epochs[a.epoch].secret, check.segment))
  {
    var check := s.checked[a.check];
    assert CheckedOk(RulesOf(c), s, check);
    CheckMacExact(c, check.state, check.token, Pending(check.state.bridgeId, check.segment));
    assert CheckMac(c, check.state, check.token).value.segment == check.segment;
    CheckMacExact(c, check.state, check.token, CheckMac(c, check.state, check.token).value);
  }

  /** `a` is the acceptance of credential `i`, in its own epoch and window, for a request with
      its digest. */
  ghost predicate Honours(c: Crypto, i: Issued, a: Accepted) {
    && a.identity == IdentityOf(i.payload) && a.epoch == i.epoch && InWindow(i.payload.iat, a.now)
    && InvocationDigest(c, a.request.operation, a.request.arguments)
       == InvocationDigest(c, i.request.operation, i.request.arguments)
    && (a.request.expectedSession.Some? ==> a.request.expectedSession.value == i.payload.sessionId)
    && (a.request.expectedCall.Some? ==> a.request.expectedCall.value == i.payload.callId)
    && ((a.request.operation == i.request.operation && a.request.arguments == i.request.arguments)
        || Collision(c, InvocationText(a.request.operation, a.request.arguments),
                     InvocationText(i.request.operation, i.request.arguments)))
  }

  lemma IssuedInEpoch(c: Crypto, b: BridgeState, q: IssueRequest)
    ensures IssuePayload(c, b, q).Some? ==> IssuePayload(c, b, q).value.bridgeId == b.bridgeId
  {
  }

  lemma CheckedInEpoch(fields: Fields, bridgeId: string)
    ensures CheckIdentity(fields, bridgeId).Ok? ==> CheckIdentity(fields, bridgeId).value.bridgeId == bridgeId
  {
  }

  lemma AcceptedInEpoch(c: Crypto, p: Pending, now: int, request: Request)
    ensures CheckPayload(c, p, now, request).Ok? ==> CheckPayload(c, p, now, request).value.bridgeId == p.bridgeId
  {
    var fields := PayloadObject(p.segment);
    if fields.Ok? {
      CheckedInEpoch(fields.value, p.bridgeId);
      var identity := CheckIdentity(fields.value, p.bridgeId);
      if identity.Ok? { CheckRequestExact(c, identity.value, request); }
    }
  }

  lemma RulesAreSound(c: Crypto)
    requires WellShaped(c)
    ensures Sound(RulesOf(c))
  {
    var r := RulesOf(c);
    forall b, q | r.issue(b, q).Some? ensures r.issue(b, q).value.bridgeId == b.bridgeId { IssuedInEpoch(c, b, q); }
    forall p, now, request | r.identity(p, now, request).Some?
      ensures r.identity(p, now, request).value.bridgeId == p.bridgeId
    {
      AcceptedInEpoch(c, p, now, request);
    }
  }

  lemma HonoursIssue(c: Crypto, s: Sys, a: Accepted, k: nat)
    requires WellShaped(c) && Inv(RulesOf(c), s) && AcceptedOk(RulesOf(c), s, a) && k < |s.issued|
    requires PayloadSegment(s.issued[k].payload) == s.checked[a.check].segment
    ensures Honours(c, s.issued[k], a)
  {
    var i := s.issued[k];
    var q := i.request;
    assert IssuedOk(RulesOf(c), s, i);
    assert IssuePayload(c, i.state, q) == Some(i.payload);
    IssuedIsIssuable(c, i.state, q.session, q.call, q.operation, q.arguments, q.now, q.nonce);
    var pending := Pending(a.identity.bridgeId, PayloadSegment(i.payload));
    assert CheckPayload(c, pending, a.now, a.request) == Ok(a.identity);
    HonoursPayload(c, s, a, i);
  }

  lemma HonoursPayload(c: Crypto, s: Sys, a: Accepted, i: Issued)
    requires EpochsOk(s) && a.epoch < |s.epochs| && i.epoch < |s.epochs|
    requires a.identity.bridgeId == s.epochs[a.epoch].id && i.payload.bridgeId == s.epochs[i.epoch].id
    requires IsIssuable(i.payload) && WellFormed(a.request.arguments) && WellFormed(i.request.arguments)
    requires InvocationDigest(c, i.request.operation, i.request.arguments) == Ok(i.payload.argsSha)
    requires CheckPayload(c, Pending(a.identity.bridgeId, PayloadSegment(i.payload)), a.now, a.request)
          == Ok(a.identity)
    ensures Honours(c, i, a)
  {
    CheckIssuedPayload(c, i.payload, a.identity.bridgeId, a.now, a.request);
    DigestBinds(c, a.request.operation, a.request.arguments, i.request.operation, i.request.arguments);
  }

  /** The credential behind an acceptance that is no forgery. */
  lemma AcceptedHonours(c: Crypto, s: Sys, a: Accepted) returns (k: nat)
    requires WellShaped(c) && Inv(RulesOf(c), s) && AcceptedOk(RulesOf(c), s, a) && !Forged(c, s, a)
    ensures k < |s.issued| && k < s.checked[a.check].issuedBefore && Honours(c, s.issued[k], a)
  {
    AcceptedIsSealed(c, s, a);
    k :| 0 <= k < |s.issued| && k < s.checked[a.check].issuedBefore
         && PayloadSegment(s.issued[k].payload) == s.checked[a.check].segment;
    HonoursIssue(c, s, a, k);
  }

  /** Accepted implies issued: every acceptance in every run is of a credential issued earlier
      in the same epoch, with its session, call, nonce and digest, inside its time window, and
      for exactly its operation and arguments -- unless its token carried a forged MAC, or two
      invocations of the run exhibit a digest collision. */
  lemma AcceptedImpliesIssued(c: Crypto, states: seq<Sys>, steps: seq<Step>, m: nat, i: nat)
    requires WellShaped(c) && IsRun(RulesOf(c), states, steps) && m <= |steps| && i < |states[m].accepted|
    ensures var s := states[m];
            var a := s.accepted[i];
            a.check < |s.checked|
            && (Forged(c, s, a) || exists k :: 0 <= k < |s.issued| && k < s.checked[a.check].issuedBefore
                                            && Honours(c, s.issued[k], a))
  {
    var s := states[m];
    RulesAreSound(c);
    RunInv(RulesOf(c), states, steps, m);
    var a := s.accepted[i];
    assert AcceptedOk(RulesOf(c), s, a);
    if !Forged(c, s, a) { var k := AcceptedHonours(c, s, a); }
  }

  /** A step that accepts nothing and is not a rotation leaves the bridge as it was, and the
      consumed set always counts exactly the acceptances since the last rotation. */
  lemma FailedVerifyChangesNothing(r: Rules, states: seq<Sys>, steps: seq<Step>, k: nat)
    requires Sound(r) && IsRun(r, states, steps) && k < |steps|
    ensures !steps[k].DoRotate? && states[k + 1].accepted == states[k].accepted
            ==> states[k + 1].bridge == states[k].bridge
    ensures |states[k + 1].bridge.consumed| == CountAccepted(states[k + 1].accepted, states[k + 1].Current())
  {
    RunInv(r, states, steps, k + 1);
  }
}
