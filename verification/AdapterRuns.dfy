/** What holds of an adapter over any sequence of serialized bind, promote, invoke and close
    attempts, however each of them fails. */
module AdapterRuns {
  import opened Wrappers
  import opened AdapterSpec

  datatype Sys = Sys(f: Fields, w: World)

  /** `Rebind` is some other part of the process setting the global dispatcher. */
  datatype Op = DoInvoke(q: Request, a: Attempt) | DoClose | Rebind(foreign: Option<string>)

  function Apply(ctx: Context, s: Sys, op: Op): Sys {
    match op
    case DoInvoke(q, a) => var (f, w, _) := Invoke(ctx, s.f, s.w, q, a); Sys(f, w)
    case DoClose => var (f, w) := Close(s.f, s.w); Sys(f, w)
    case Rebind(name) =>
      s.(w := s.w.(dispatcher := if name.Some? then Some(Foreign(name.value)) else None))
  }

  function Start(ctx: Context, w: World, a: Attempt): Sys {
    var (f, w') := Resume(ctx, w, a);
    Sys(f, w')
  }

  /** A process that has composed no host and written no evidence yet, whatever evidence it finds. */
  predicate Fresh(w: World) {
    w.closes == [] && w.torn == {} && w.seat.None? && (w.dispatcher.Some? ==> w.dispatcher.value.Foreign?)
  }

  // ---------- durable writes ----------

  /** A durable write is all or nothing, and says which, unless it reports that its rollback
      could not be verified; then the file holds the old evidence or the new. */
  ghost predicate AllOrNothingWrite(was: Option<Record>, content: Record, file: Option<Record>, problem: Option<Code>) {
    && (problem.None? ==> file == Some(content))
    && (problem.Some? && problem != Some(RollbackFailed) ==> file == was)
    && (file == was || file == Some(content))
  }

  /** A Plan record that may replace a Project record. */
  predicate Promotes(was: Record, content: Record) {
    && was.plan.None? && content.plan.Some?
    && was.project == content.project && was.fingerprint == content.fingerprint
  }

  /** A durable write changes other evidence only where a promotion expects it, to evidence of a
      Plan in the same Project, even when it fails. */
  lemma PersistIsAtomic(was: Option<Record>, content: Record, expected: Option<Record>, io: Io)
    ensures var (file, problem) := Persist(was, content, expected, io);
            && AllOrNothingWrite(was, content, file, problem)
            && (file != was && was.Some? ==> expected == was && Promotes(was.value, content))
            && (problem.None? && was.Some? && expected.Some? ==> expected == was && Promotes(was.value, content))
  {
  }

  lemma RefreshIsAtomic(was: Option<Record>, expected: Record, content: Record, io: Io)
    ensures var (file, problem) := Refresh(was, expected, content, io);
            AllOrNothingWrite(was, content, file, problem)
    ensures var (file, problem) := Refresh(was, expected, content, io);
            file != was || problem.None? ==> was == Some(expected) && SameEvidence(expected, content)
  {
  }

  // ---------- the invariant ----------

  ghost predicate IsUnbound(f: Fields) { f.delegate.None? && f.runtime.None? && f.binding.None? }

  /** Delegate, runtime and binding are there together and come from one host. */
  ghost predicate Coherent(ctx: Context, f: Fields) {
    || IsUnbound(f)
    || (f.runtime.Some?
        && f.delegate == Some(f.runtime.value.binding) && f.binding == Some(f.runtime.value.binding)
        && f.runtime.value.binding.project == f.runtime.value.evidence.listing.project
        && f.runtime.value.binding.host == f.runtime.value.id && f.runtime.value.binding.session == ctx.origin)
  }

  ghost predicate IsInstalled(f: Fields, h: nat) { f.runtime.Some? && f.runtime.value.id == h }

  /** The hosts still open are exactly the installed one, and no host is closed twice. */
  ghost predicate NoLeak(s: Sys) {
    && (forall h :: 0 <= h < |s.w.closes| ==> s.w.closes[h] == if IsInstalled(s.f, h) then 0 else 1)
    && (s.f.runtime.Some? ==> s.f.runtime.value.id < |s.w.closes|)
  }

  /** What is installed is what the evidence in its seat says.  After a rollback there that could not
      be verified, it may instead be the Plan evidence a promotion of it tried to write. */
  ghost predicate Recorded(ctx: Context, s: Sys) {
    s.f.runtime.Some? ==>
      && s.w.seat.Some? && s.w.seat.value in s.w.evidence
      && (s.w.evidence[s.w.seat.value] == RecordOf(ctx, s.f.runtime.value)
          || (s.w.seat.value in s.w.torn
              && Promotes(RecordOf(ctx, s.f.runtime.value), s.w.evidence[s.w.seat.value])))
  }

  /** The dispatcher is never left half-bound, and a bound adapter's is its installed host's. */
  ghost predicate DispatcherOk(ctx: Context, s: Sys) {
    && s.w.dispatcher != Some(Stray)
    && (s.w.dispatcher.Some? && s.w.dispatcher.value.OfHost? ==>
          ctx.bindGlobal && s.w.dispatcher.value.id < |s.w.closes|
          && (s.f.runtime.Some? ==> IsInstalled(s.f, s.w.dispatcher.value.id)))
  }

  ghost predicate Inv(ctx: Context, s: Sys) {
    Coherent(ctx, s.f) && NoLeak(s) && Recorded(ctx, s) && DispatcherOk(ctx, s)
  }

  // ---------- one transaction ----------

  /** A host this transaction composed, if it did, is the next one and is closed again. */
  ghost predicate NothingOpened(before: World, after: World) {
    after.closes == before.closes || after.closes == before.closes + [1]
  }

  /** Evidence, and the home it is for. */
  datatype Filing = Filing(home: string, record: Record)

  /** The evidence an attempt would write: what it resolved and composed. */
  function Attempted(ctx: Context, a: Attempt): Option<Filing> {
    if a.resolution.Some? && a.resolution.value.candidate.Some? && a.composed.Built? then
      var evidence := a.composed.evidence;
      Some(Filing(evidence.home,
                  Record(a.resolution.value.candidate.value.listing.project, ctx.fingerprint(evidence.listing),
                         a.composed.plan, a.composed.roots)))
    else None
  }

  ghost predicate KeepsEvidence(w: World, w': World) {
    w'.evidence == w.evidence && w'.torn == w.torn && w'.seat == w.seat
  }

  /** A failed write that says so leaves the evidence it tried to write, if any; where there was
      other evidence, that is a promotion of it. */
  ghost predicate Disturbs(w: World, w': World, at: Filing) {
    && w'.seat == w.seat && w'.torn == w.torn + {at.home}
    && (w'.evidence == w.evidence
        || (w'.evidence == w.evidence[at.home := at.record]
            && (at.home in w.evidence ==> Promotes(w.evidence[at.home], at.record))))
  }

  /** A failed transaction leaves the fields and the dispatcher as they were, leaves no host
      open, and leaves all evidence alone unless it says it could not; then only the evidence in
      the home it attempted may differ. */
  ghost predicate LeavesAlone(s: Sys, s': Sys, at: Option<Filing>) {
    && s'.f.delegate == s.f.delegate && s'.f.runtime == s.f.runtime && s'.f.binding == s.f.binding
    && s'.w.dispatcher == s.w.dispatcher
    && NothingOpened(s.w, s'.w)
    && (KeepsEvidence(s.w, s'.w) || (at.Some? && Disturbs(s.w, s'.w, at.value)))
  }

  /** A successful one installs exactly the host it composed, with its evidence and dispatcher,
      and closes the host it replaces. */
  ghost predicate Installs(ctx: Context, s: Sys, s': Sys) {
    && s'.f.runtime.Some? && s'.f.runtime.value.id == |s.w.closes| && Coherent(ctx, s'.f)
    && Files(ctx, s.w, s'.w, s'.f.runtime.value)
    && s'.w.dispatcher == (if ctx.bindGlobal then Some(OfHost(|s.w.closes|)) else s.w.dispatcher)
    && |s'.w.closes| == |s.w.closes| + 1 && s'.w.closes[|s.w.closes|] == 0
    && forall h :: 0 <= h < |s.w.closes| ==>
         s'.w.closes[h] == s.w.closes[h] + if IsInstalled(s.f, h) then 1 else 0
  }

  /** The seat now holds the host's evidence, and every other home what it held before. */
  ghost predicate Files(ctx: Context, w: World, w': World, host: Host) {
    && w'.seat.Some? && w'.torn == w.torn - {w'.seat.value}
    && w'.evidence == w.evidence[w'.seat.value := RecordOf(ctx, host)]
  }

  ghost predicate Opened(ctx: Context, w: World, w1: World, host: Option<Host>, project: string) {
    && w1.closes == (if host.Some? then w.closes + [0] else w.closes)
    && (host.Some? ==>
          && host.value.id == |w.closes| == host.value.binding.host
          && host.value.binding.session == ctx.origin
          && host.value.binding.project == host.value.evidence.listing.project == project)
  }

  lemma FileSame(evidence: map<string, Record>, home: string)
    ensures File(evidence, home, Filed(evidence, home)) == evidence
  {
  }

  lemma SaveOutcome(ctx: Context, w: World, f: Fields, promotion: bool, host: Host, a: Attempt)
    ensures var (w', problem) := Save(ctx, w, f, promotion, host, a);
            var at := Filing(host.evidence.home, RecordOf(ctx, host));
            && w'.closes == w.closes && w'.dispatcher == w.dispatcher
            && (problem.None? ==>
                  && Files(ctx, w, w', host) && w'.seat == Some(at.home)
                  && (promotion && at.home in w.evidence ==> Promotes(w.evidence[at.home], at.record)))
            && (problem.Some? && problem != Some(RollbackFailed) ==> KeepsEvidence(w, w'))
            && (problem == Some(RollbackFailed) ==> Disturbs(w, w', at))
  {
    var home := host.evidence.home;
    var was := Filed(w.evidence, home);
    PersistIsAtomic(was, RecordOf(ctx, host), if promotion then was else None, a.io);
    FileSame(w.evidence, home);
  }

  lemma ActivateOutcome(ctx: Context, f: Fields, w: World, promotion: bool, resolution: Resolution, a: Attempt)
    requires resolution.candidate.Some? && a.resolution.Some? && resolution.candidate == a.resolution.value.candidate
    ensures var (w1, activation) := Activate(ctx, f, w, promotion, resolution, a);
            && Opened(ctx, w, w1, if activation.Ready? then Some(activation.host) else activation.open,
                      resolution.candidate.value.listing.project)
            && (!ctx.bindGlobal || promotion ==> w1.dispatcher == w.dispatcher)
            && (activation.Failed? ==>
                  && (activation.code != RollbackFailed ==> KeepsEvidence(w, w1))
                  && (KeepsEvidence(w, w1) || (Attempted(ctx, a).Some? && Disturbs(w, w1, Attempted(ctx, a).value))))
            && (activation.Ready? ==>
                  && HostProblem(ctx, resolution, activation.host, a).None? && Files(ctx, w, w1, activation.host)
                  && Attempted(ctx, a) == Some(Filing(w1.seat.value, RecordOf(ctx, activation.host)))
                  && (ctx.bindGlobal && !promotion ==> w1.dispatcher == Some(OfHost(|w.closes|)))
                  && (promotion && w1.seat.value in w.evidence ==>
                        Promotes(w.evidence[w1.seat.value], RecordOf(ctx, activation.host))))
  {
    var (w1, composed) :=
      Compose(ctx, w, resolution.candidate.value.listing.project, a.composed, ctx.bindGlobal && !promotion);
    if composed.Some? && HostProblem(ctx, resolution, composed.value, a).None? {
      SaveOutcome(ctx, w1, f, promotion, composed.value, a);
    }
  }

  lemma PreparedProject(ctx: Context, f: Fields, promotion: bool, q: Request, a: Attempt)
    requires Prepare(ctx, f, promotion, q, a).Ok?
    ensures var resolution := Prepare(ctx, f, promotion, q, a).value;
            && resolution.candidate.Some? && a.resolution.Some?
            && resolution.candidate == a.resolution.value.candidate
            && (promotion ==>
                  CheckCurrent(ctx, f, q, a.currentRootsOk) ==
                  Ok(ctx.fingerprint(resolution.candidate.value.listing)))
  {
  }

  /** The evidence an attempt has written when it succeeded. */
  ghost predicate FiledAsAttempted(ctx: Context, s': Sys, a: Attempt) {
    && s'.w.seat.Some? && s'.f.runtime.Some?
    && Attempted(ctx, a) == Some(Filing(s'.w.seat.value, RecordOf(ctx, s'.f.runtime.value)))
  }

  lemma BindOutcome(ctx: Context, s: Sys, promotion: bool, q: Request, a: Attempt)
    requires Inv(ctx, s) && (promotion || IsUnbound(s.f))
    ensures var (f, w, problem) := Bind(ctx, s.f, s.w, promotion, q, a);
            && f.resumeError == s.f.resumeError
            && (if problem.None? then Installs(ctx, s, Sys(f, w)) && FiledAsAttempted(ctx, Sys(f, w), a)
                else LeavesAlone(s, Sys(f, w), Attempted(ctx, a)))
            && (problem.Some? && problem != Some(RollbackFailed) ==> KeepsEvidence(s.w, w))
  {
    var prepared := Prepare(ctx, s.f, promotion, q, a);
    if prepared.Ok? {
      PreparedProject(ctx, s.f, promotion, q, a);
      ActivateOutcome(ctx, s.f, s.w, promotion, prepared.value, a);
    }
  }

  predicate Transacts(f: Fields, q: Request) { RouteOf(f, q).Promote? || RouteOf(f, q).BindFresh? }

  /** All or nothing, for whatever is invoked: either a transaction succeeded, or nothing that
      the session or the process can observe has changed, other than as reported. */
  lemma InvokeAllOrNothing(ctx: Context, s: Sys, q: Request, a: Attempt)
    requires Inv(ctx, s)
    ensures var (f, w, problem) := Invoke(ctx, s.f, s.w, q, a);
            && (if problem.None? && Transacts(s.f, q) then
                  Installs(ctx, s, Sys(f, w)) && FiledAsAttempted(ctx, Sys(f, w), a)
                else LeavesAlone(s, Sys(f, w), Attempted(ctx, a)))
            && (problem != Some(RollbackFailed) && !(problem.None? && Transacts(s.f, q)) ==> KeepsEvidence(s.w, w))
  {
    match RouteOf(s.f, q)
    case Promote => BindOutcome(ctx, s, true, q, a);
    case BindFresh => BindOutcome(ctx, s, false, q, a);
    case _ =>
  }

  lemma InstallsInv(ctx: Context, s: Sys, s': Sys)
    requires Inv(ctx, s) && Installs(ctx, s, s')
    ensures Inv(ctx, s')
  {
  }

  lemma LeavesAloneInv(ctx: Context, s: Sys, s': Sys, at: Option<Filing>)
    requires Inv(ctx, s) && LeavesAlone(s, s', at)
    ensures Inv(ctx, s')
  {
  }

  lemma StepInv(ctx: Context, s: Sys, op: Op)
    requires Inv(ctx, s)
    ensures Inv(ctx, Apply(ctx, s, op))
  {
    match op
    case DoInvoke(q, a) =>
      InvokeAllOrNothing(ctx, s, q, a);
      var s' := Apply(ctx, s, op);
      if Installs(ctx, s, s') { InstallsInv(ctx, s, s'); } else { LeavesAloneInv(ctx, s, s', Attempted(ctx, a)); }
    case DoClose =>
    case Rebind(_) =>
  }

  // ---------- resume ----------

  /** No Plan in either, or one Plan, whose revision and digest may have advanced. */
  predicate SamePlan(was: Option<Plan>, now: Option<Plan>) {
    (was.None? && now.None?) || (was.Some? && now.Some? && was.value.identity == now.value.identity)
  }

  /** Equal in all but what was observed of the Plan's source. */
  predicate SameEvidence(was: Record, now: Record) {
    was.project == now.project && was.fingerprint == now.fingerprint && was.roots == now.roots
    && SamePlan(was.plan, now.plan)
  }

  /** A resume that fails leaves an unbound adapter, an untouched dispatcher, no open host and
      the old evidence; one that succeeds installs the host it recomposed, for the same Project,
      fingerprint, Plan identity and roots as the evidence, which it refreshes where it was. */
  ghost predicate Resumes(ctx: Context, w: World, f: Fields, w': World) {
    if f.runtime.None? then
      && IsUnbound(f) && w'.dispatcher == w.dispatcher && NothingOpened(w, w')
      && w'.evidence.Keys == w.evidence.Keys
      && forall home :: home in w.evidence ==>
           || w'.evidence[home] == w.evidence[home]
           || (home in w'.torn && SameEvidence(w.evidence[home], w'.evidence[home]))
    else
      && Installs(ctx, Sys(Unbound(None), w), Sys(f, w')) && f.resumeError.None?
      && w'.seat.value in w.evidence
      && SameEvidence(w.evidence[w'.seat.value], RecordOf(ctx, f.runtime.value))
  }

  lemma ReactivateOutcome(ctx: Context, w: World, home: string, a: Attempt)
    requires home in w.evidence && Fresh(w)
    ensures var (w1, activation) := Reactivate(ctx, w, home, a);
            && (!ctx.bindGlobal ==> w1.dispatcher == w.dispatcher)
            && (activation.Failed? ==>
                  || w1.evidence == w.evidence
                  || (exists now :: home in w1.torn && w1.evidence == w.evidence[home := now]
                                    && SameEvidence(w.evidence[home], now)))
            && (activation.Failed? && activation.open.None? ==> NothingOpened(w, w1))
            && (activation.Failed? && activation.open.Some? ==>
                  w1.closes == w.closes + [0] && activation.open.value.id == |w.closes|)
            && (activation.Ready? ==>
                  && Opened(ctx, w, w1, Some(activation.host), activation.host.binding.project)
                  && Files(ctx, w, w1, activation.host) && w1.seat == Some(home)
                  && SameEvidence(w.evidence[home], RecordOf(ctx, activation.host))
                  && (ctx.bindGlobal ==> w1.dispatcher == Some(OfHost(|w.closes|))))
  {
    var (w1, activation) := Recompose(ctx, w, w.evidence[home], a);
    if activation.Ready? {
      RefreshIsAtomic(Filed(w1.evidence, home), w.evidence[home], RecordOf(ctx, activation.host), a.io);
      FileSame(w1.evidence, home);
    }
  }

  lemma ResumeOutcome(ctx: Context, w: World, a: Attempt)
    requires Fresh(w)
    ensures var (f, w') := Resume(ctx, w, a); Resumes(ctx, w, f, w')
    ensures Inv(ctx, Start(ctx, w, a))
  {
    ResumeResumes(ctx, w, a);
    ResumesInv(ctx, w, Start(ctx, w, a));
  }

  lemma ResumeResumes(ctx: Context, w: World, a: Attempt)
    requires Fresh(w)
    ensures var (f, w') := Resume(ctx, w, a); Resumes(ctx, w, f, w')
  {
    var homes := Matches(w.evidence, a.visible);
    if ctx.exact && a.looksUp && |homes| == 1 {
      var (w1, activation) := Reactivate(ctx, w, TheOne(homes), a);
      if activation.Ready? { ReadyResumes(ctx, w, TheOne(homes), a); } else { FailedResumes(ctx, w, TheOne(homes), a); }
    }
  }

  lemma ReadyResumes(ctx: Context, w: World, home: string, a: Attempt)
    requires home in w.evidence && Fresh(w) && Reactivate(ctx, w, home, a).1.Ready?
    ensures var (w1, activation) := Reactivate(ctx, w, home, a); Resumes(ctx, w, Install(activation.host, None), w1)
  {
    ReactivateOutcome(ctx, w, home, a);
  }

  lemma FailedResumes(ctx: Context, w: World, home: string, a: Attempt)
    requires home in w.evidence && Fresh(w) && Reactivate(ctx, w, home, a).1.Failed?
    ensures var (w1, activation) := Reactivate(ctx, w, home, a);
            Resumes(ctx, w, Unbound(Some(activation.code)), Abort(ctx, w1, w.dispatcher, activation.open))
  {
    ReactivateOutcome(ctx, w, home, a);
  }

  lemma ResumesInv(ctx: Context, w: World, s: Sys)
    requires Fresh(w) && Resumes(ctx, w, s.f, s.w)
    ensures Inv(ctx, s)
  {
    if s.f.runtime.Some? { InstallsInv(ctx, Sys(Unbound(None), w), s); }
  }

  // ---------- runs ----------

  ghost predicate IsRun(ctx: Context, states: seq<Sys>, ops: seq<Op>) {
    && |states| == |ops| + 1
    && (exists w, a :: Fresh(w) && states[0] == Start(ctx, w, a))
    && forall k :: 0 <= k < |ops| ==> states[k + 1] == Apply(ctx, states[k], ops[k])
  }

  lemma {:induction false} RunInv(ctx: Context, states: seq<Sys>, ops: seq<Op>, k: nat)
    requires IsRun(ctx, states, ops) && k <= |ops|
    ensures Inv(ctx, states[k])
  {
    if k == 0 {
      var w, a :| Fresh(w) && states[0] == Start(ctx, w, a);
      ResumeOutcome(ctx, w, a);
    } else {
      RunInv(ctx, states, ops, k - 1);
      StepInv(ctx, states[k - 1], ops[k - 1]);
    }
  }

  /** Binding is all or nothing and leaks nothing, after any sequence of attempts: the three
      fields come from one host or are all empty, the hosts still open are exactly the installed
      one, every other host was closed exactly once, and what is installed is what the evidence
      in its seat says unless an unverifiable rollback was reported there. */
  lemma BindingIsAtomic(ctx: Context, states: seq<Sys>, ops: seq<Op>, k: nat, h: nat)
    requires IsRun(ctx, states, ops) && k <= |ops|
    ensures var s := states[k];
            && Coherent(ctx, s.f) && Recorded(ctx, s)
            && (h < |s.w.closes| ==> s.w.closes[h] <= 1 && (s.w.closes[h] == 0 <==> IsInstalled(s.f, h)))
    ensures k < |ops| && ops[k].DoInvoke? ==>
              LeavesAlone(states[k], states[k + 1], Attempted(ctx, ops[k].a)) || Installs(ctx, states[k], states[k + 1])
  {
    RunInv(ctx, states, ops, k);
    if k < |ops| && ops[k].DoInvoke? { InvokeAllOrNothing(ctx, states[k], ops[k].q, ops[k].a); }
  }

  /** An adapter that may not bind the global dispatcher never changes it. */
  lemma NeverTouchesDispatcher(ctx: Context, states: seq<Sys>, ops: seq<Op>, k: nat)
    requires IsRun(ctx, states, ops) && k < |ops| && !ctx.bindGlobal && !ops[k].Rebind?
    ensures states[k + 1].w.dispatcher == states[k].w.dispatcher
  {
    RunInv(ctx, states, ops, k);
    if ops[k].DoInvoke? { InvokeAllOrNothing(ctx, states[k], ops[k].q, ops[k].a); }
  }

  // ---------- exactly when a transaction succeeds ----------

  /** The composed host carries the Project evidence that was resolved, and its Plan if wanted. */
  ghost predicate BuiltAsResolved(ctx: Context, resolution: Resolution, wantsPlan: bool, c: Composed) {
    && c.Built? && resolution.candidate.Some?
    && c.plan == (if wantsPlan then resolution.plan else None) && (wantsPlan ==> c.plan.Some?)
    && c.evidence.listing.project == resolution.candidate.value.listing.project
    && ctx.fingerprint(c.evidence.listing) == ctx.fingerprint(resolution.candidate.value.listing)
    && c.evidence.registry == resolution.candidate.value.registry
  }

  ghost predicate Writes(io: Io) { io.listed && !io.raised && io.readBack }

  /** The context has what it takes, and every call a bind makes goes well. */
  ghost predicate Smooth(ctx: Context, wantsPlan: bool, a: Attempt) {
    && ctx.exact && ctx.registry && ctx.runtimeConfig && (wantsPlan ==> ctx.governance)
    && a.resolution.Some? && BuiltAsResolved(ctx, a.resolution.value, wantsPlan, a.composed)
    && a.rootsOk && a.materializes && a.binds && a.readsBack
  }

  /** The home holds this very evidence of the session, or none and can take it. */
  ghost predicate TakesNew(evidence: map<string, Record>, at: Filing, io: Io) {
    || (Filed(evidence, at.home) == Some(at.record) && io.listed)
    || (at.home !in evidence && io.roomLeft && Writes(io))
  }

  /** The home holds evidence that this promotes, with the roots of what is bound, or none and
      can take it. */
  ghost predicate TakesPromoted(evidence: map<string, Record>, at: Filing, roots: string, io: Io) {
    && Writes(io)
    && if at.home in evidence then evidence[at.home].roots == roots && Promotes(evidence[at.home], at.record)
       else io.roomLeft
  }

  lemma FreshBindSucceeds(ctx: Context, f: Fields, w: World, q: Request, a: Attempt)
    ensures Bind(ctx, f, w, false, q, a).2.None? <==>
              && Given(q.project) && Smooth(ctx, Given(q.plan), a)
              && TakesNew(w.evidence, Attempted(ctx, a).value, a.io)
  {
  }

  lemma PromotionSucceeds(ctx: Context, f: Fields, w: World, q: Request, a: Attempt)
    requires Coherent(ctx, f) && IsPromotion(f, q)
    ensures Bind(ctx, f, w, true, q, a).2.None? <==>
              && f.runtime.Some? && a.currentRootsOk && (q.project.Some? ==> q.project.value != "")
              && Smooth(ctx, true, a)
              && Attempted(ctx, a).value.record.fingerprint == ctx.fingerprint(f.runtime.value.evidence.listing)
              && a.looksUp && TakesPromoted(w.evidence, Attempted(ctx, a).value, f.binding.value.roots, a.io)
  {
  }

  /** The context has what it takes to resume `durable`, live authority still matches it in all
      but the Plan's observed source, and every call goes well. */
  ghost predicate Rejoins(ctx: Context, durable: Record, a: Attempt) {
    && ctx.exact && ctx.registry && ctx.runtimeConfig && (durable.plan.Some? ==> ctx.governance)
    && a.looksUp && a.resolution.Some? && a.resolution.value.candidate.Some?
    && (durable.plan.Some? ==> a.resolution.value.plan.Some?)
    && ctx.fingerprint(a.resolution.value.candidate.value.listing) == durable.fingerprint
    && a.composed.Built? && a.composed.evidence.listing.project == durable.project
    && SameEvidence(durable, Attempted(ctx, a).value.record)
    && a.rootsOk && a.materializes && a.readsBack && Writes(a.io)
  }

  lemma ResumeSucceeds(ctx: Context, w: World, a: Attempt)
    ensures var homes := Matches(w.evidence, a.visible);
            Resume(ctx, w, a).0.runtime.Some? <==> |homes| == 1 && Rejoins(ctx, w.evidence[TheOne(homes)], a)
  {
  }

  // ---------- what an attempt does to a session ----------

  function Rank(f: Fields): int {
    if f.binding.None? then 0 else if f.binding.value.plan.None? then 1 else 2
  }

  /** In any run, an invocation binds an unbound session if and only if its resume has not failed,
      it is a valid bind of a named Project, the context has what it takes and every call goes
      well, and the Project's home holds no evidence of the session yet or this very evidence,
      whatever other homes hold.  The session is then bound to the Plan, or else the Project, with
      the attempted evidence in that home. */
  lemma BindTakesEffect(ctx: Context, states: seq<Sys>, ops: seq<Op>, k: nat, q: Request, a: Attempt)
    requires IsRun(ctx, states, ops) && k < |ops| && ops[k] == DoInvoke(q, a) && Rank(states[k].f) == 0
    ensures var s, s' := states[k], states[k + 1];
            && (Rank(s'.f) > 0 <==>
                  && s.f.resumeError.None? && q.isContext && q.valid && q.isBind && Given(q.project)
                  && Smooth(ctx, Given(q.plan), a) && TakesNew(s.w.evidence, Attempted(ctx, a).value, a.io))
            && (Rank(s'.f) > 0 ==>
                  && Rank(s'.f) == (if Given(q.plan) then 2 else 1)
                  && Installs(ctx, s, s') && FiledAsAttempted(ctx, s', a))
  {
    var s := states[k];
    RunInv(ctx, states, ops, k);
    InvokeAllOrNothing(ctx, s, q, a);
    if RouteOf(s.f, q).BindFresh? { FreshBindSucceeds(ctx, s.f, s.w, q, a); }
  }

  /** In any run, an invocation promotes a Project-bound session if and only if it is a valid bind
      request that names a Plan, and the bound Project if any, the current roots are valid, the
      resolved Project has the bound fingerprint, everything goes well, and the home of the host it
      composes holds evidence it promotes, with the bound roots, or none.  Otherwise the session stays as it is. */
  lemma PromotionTakesEffect(ctx: Context, states: seq<Sys>, ops: seq<Op>, k: nat, q: Request, a: Attempt)
    requires IsRun(ctx, states, ops) && k < |ops| && ops[k] == DoInvoke(q, a) && Rank(states[k].f) == 1
    ensures var s, s' := states[k], states[k + 1];
            && s.f.runtime.Some?
            && (Rank(s'.f) == 2 <==>
                  && q.isContext && q.valid && q.isBind && q.plan.Some? && q.plan.value != ""
                  && (q.project.Some? ==> q.project.value == s.f.binding.value.project && q.project.value != "")
                  && a.currentRootsOk && Smooth(ctx, true, a)
                  && Attempted(ctx, a).value.record.fingerprint == ctx.fingerprint(s.f.runtime.value.evidence.listing)
                  && a.looksUp
                  && TakesPromoted(s.w.evidence, Attempted(ctx, a).value, s.f.binding.value.roots, a.io))
            && (Rank(s'.f) == 2 ==> Installs(ctx, s, s') && FiledAsAttempted(ctx, s', a))
            && (Rank(s'.f) != 2 ==> s'.f == s.f)
  {
    var s := states[k];
    RunInv(ctx, states, ops, k);
    InvokeAllOrNothing(ctx, s, q, a);
    if RouteOf(s.f, q).Promote? { PromotionSucceeds(ctx, s.f, s.w, q, a); }
  }

  /** In the home where the session's evidence is, a promotion needs exactly the bound evidence
      there, and stays in its very Project. */
  lemma PromotionAtSeat(ctx: Context, states: seq<Sys>, ops: seq<Op>, k: nat, a: Attempt)
    requires IsRun(ctx, states, ops) && k <= |ops| && Rank(states[k].f) == 1 && Smooth(ctx, true, a)
    requires var s, at := states[k], Attempted(ctx, a).value;
             && s.f.runtime.Some? && s.w.seat == Some(at.home)
             && at.record.fingerprint == ctx.fingerprint(s.f.runtime.value.evidence.listing)
    ensures var s, at := states[k], Attempted(ctx, a).value;
            TakesPromoted(s.w.evidence, at, s.f.binding.value.roots, a.io) <==>
              && Writes(a.io) && at.record.project == s.f.binding.value.project
              && Filed(s.w.evidence, at.home) == Some(RecordOf(ctx, s.f.runtime.value))
  {
    RunInv(ctx, states, ops, k);
  }

  // ---------- what close() leaves behind ----------

  /** The global dispatcher serves a host that has been closed. */
  ghost predicate Dangling(s: Sys) {
    && s.w.dispatcher.Some? && s.w.dispatcher.value.OfHost?
    && s.w.dispatcher.value.id < |s.w.closes| && s.w.closes[s.w.dispatcher.value.id] > 0
  }

  predicate ServesHost(w: World) { w.dispatcher.Some? && w.dispatcher.value.OfHost? }

  /** Closing the adapter does not put the global dispatcher back: it is left serving a closed
      host exactly when it served one of this adapter's hosts before. */
  lemma CloseLeavesDispatcher(ctx: Context, states: seq<Sys>, ops: seq<Op>, k: nat)
    requires IsRun(ctx, states, ops) && k < |ops| && ops[k].DoClose?
    ensures Dangling(states[k + 1]) <==> ServesHost(states[k].w)
    ensures states[k + 1].w.dispatcher == states[k].w.dispatcher
  {
    RunInv(ctx, states, ops, k);
    RunInv(ctx, states, ops, k + 1);
  }

  /** In any reachable state it does so exactly when nothing is installed. */
  lemma DanglesExactly(ctx: Context, states: seq<Sys>, ops: seq<Op>, k: nat)
    requires IsRun(ctx, states, ops) && k <= |ops|
    ensures Dangling(states[k]) <==> ServesHost(states[k].w) && IsUnbound(states[k].f)
  {
    RunInv(ctx, states, ops, k);
  }

  ghost predicate CanDangle(ctx: Context) {
    exists states, ops, k :: IsRun(ctx, states, ops) && 0 <= k <= |ops| && Dangling(states[k])
  }

  /** What a context needs before anything can be composed for it. */
  predicate Composes(ctx: Context) { ctx.exact && ctx.registry && ctx.runtimeConfig }

  lemma NeedsContext(ctx: Context, s: Sys, op: Op)
    requires !Composes(ctx) && s.w.closes == [] && s.f.runtime.None?
    ensures Apply(ctx, s, op).w.closes == [] && Apply(ctx, s, op).f.runtime.None?
  {
  }

  lemma {:induction false} ComposesNothing(ctx: Context, states: seq<Sys>, ops: seq<Op>, k: nat)
    requires IsRun(ctx, states, ops) && k <= |ops| && !Composes(ctx)
    ensures states[k].w.closes == [] && states[k].f.runtime.None?
  {
    if k > 0 {
      ComposesNothing(ctx, states, ops, k - 1);
      NeedsContext(ctx, states[k - 1], ops[k - 1]);
    }
  }

  function GoodIo(): Io { Io(true, true, true, false, true, true, true, false, true, true) }

  /** Resuming evidence of a Project, in a process with no dispatcher. */
  lemma ServingStart(ctx: Context) returns (w: World, a: Attempt)
    requires Composes(ctx) && ctx.bindGlobal
    ensures Fresh(w) && ServesHost(Start(ctx, w, a).w)
  {
    var candidate := Candidate(Listing("p", "", "", "", "", ""), "h", "g");
    w := World(None, [], map["h" := Record("p", ctx.fingerprint(candidate.listing), None, "r")], {}, None);
    a := Attempt(true, Some(Resolution(Some(candidate), None)), Built(candidate, None, "r"),
                 true, true, true, true, true, {"h"}, GoodIo());
    assert Matches(w.evidence, a.visible) == {"h"};
    ResumeSucceeds(ctx, w, a);
    ResumeOutcome(ctx, w, a);
  }

  lemma DanglingRun(ctx: Context)
    requires Composes(ctx) && ctx.bindGlobal
    ensures CanDangle(ctx)
  {
    var w, a := ServingStart(ctx);
    var s := Start(ctx, w, a);
    var states, ops := [s, Apply(ctx, s, DoClose)], [DoClose];
    assert Fresh(w) && states[0] == Start(ctx, w, a);
    assert IsRun(ctx, states, ops);
    CloseLeavesDispatcher(ctx, states, ops, 0);
    assert Dangling(states[1]);
  }

  /** The line runs at the context: an adapter can leave the dispatcher serving a closed host if
      and only if it may bind the global dispatcher and can compose a host at all, for which it
      needs an exact session reference, a registry and a runtime configuration. */
  lemma DanglingIsPossible(ctx: Context)
    ensures CanDangle(ctx) <==> ctx.bindGlobal && ctx.exact && ctx.registry && ctx.runtimeConfig
  {
    if ctx.bindGlobal && Composes(ctx) {
      DanglingRun(ctx);
    } else {
      forall states, ops, k: nat | IsRun(ctx, states, ops) && k <= |ops| ensures !Dangling(states[k]) {
        RunInv(ctx, states, ops, k);
        if !Composes(ctx) { ComposesNothing(ctx, states, ops, k); }
      }
    }
  }

  // ---------- a binding only moves forward ----------

  /** Two Projects that the fingerprint, a digest, does not tell apart. */
  ghost predicate Confused(ctx: Context, l: Listing, m: Listing) {
    l.project != m.project && ctx.fingerprint(l) == ctx.fingerprint(m)
  }

  ghost predicate SameProject(ctx: Context, f: Fields, f': Fields) {
    && f.runtime.Some? && f'.runtime.Some? && f.binding.Some? && f'.binding.Some?
    && var l, m := f.runtime.value.evidence.listing, f'.runtime.value.evidence.listing;
       && ctx.fingerprint(l) == ctx.fingerprint(m)
       && (f.binding.value.project == f'.binding.value.project || Confused(ctx, l, m))
  }

  /** One invocation: a Plan-bound adapter and one whose resume failed change nothing; a
      Project-bound one stays as it is or is promoted in its Project; an unbound one may bind. */
  ghost predicate Forward(ctx: Context, s: Sys, s': Sys) {
    && (Rank(s.f) == 2 ==> s' == s)
    && (Rank(s.f) == 1 ==> s'.f == s.f || (Rank(s'.f) == 2 && SameProject(ctx, s.f, s'.f)))
    && (Rank(s.f) == 0 && s.f.resumeError.Some? ==> s' == s)
    && s'.f.resumeError == s.f.resumeError
  }

  /** The fingerprint comparison keeps a promotion in its Project, whatever the resolver says. */
  lemma PromotionKeepsProject(ctx: Context, s: Sys, q: Request, a: Attempt)
    requires Inv(ctx, s) && RouteOf(s.f, q).Promote? && Bind(ctx, s.f, s.w, true, q, a).2.None?
    ensures var f := Bind(ctx, s.f, s.w, true, q, a).0;
            Rank(f) == 2 && SameProject(ctx, s.f, f) && f.resumeError == s.f.resumeError
  {
    PreparedProject(ctx, s.f, true, q, a);
    var resolution := Prepare(ctx, s.f, true, q, a).value;
    ActivateOutcome(ctx, s.f, s.w, true, resolution, a);
    var host := Activate(ctx, s.f, s.w, true, resolution, a).1.host;
    assert ctx.fingerprint(host.evidence.listing) == ctx.fingerprint(s.f.runtime.value.evidence.listing);
    assert host.binding.plan.Some?;
  }

  lemma InvokeForward(ctx: Context, s: Sys, q: Request, a: Attempt)
    requires Inv(ctx, s)
    ensures Forward(ctx, s, Apply(ctx, s, DoInvoke(q, a)))
  {
    match RouteOf(s.f, q)
    case Promote =>
      BindOutcome(ctx, s, true, q, a);
      if Bind(ctx, s.f, s.w, true, q, a).2.None? { PromotionKeepsProject(ctx, s, q, a); }
    case BindFresh => BindOutcome(ctx, s, false, q, a);
    case _ =>
  }

  /** A session's binding only moves forward until it is closed: unbound, then Project-bound,
      then Plan-bound; once bound the fingerprint never changes, nor does the Project unless two
      Projects have one fingerprint; a Plan-bound adapter keeps its very fields; and one whose
      resume failed stays unbound. */
  lemma {:induction false} OnlyForward(ctx: Context, states: seq<Sys>, ops: seq<Op>, k: nat, m: nat)
    requires IsRun(ctx, states, ops) && k <= m <= |ops|
    requires forall j :: k <= j < m ==> !ops[j].DoClose?
    ensures Rank(states[k].f) <= Rank(states[m].f)
    ensures Rank(states[k].f) > 0 ==> SameProject(ctx, states[k].f, states[m].f)
    ensures Rank(states[k].f) == Rank(states[m].f) > 0 ==> states[m].f == states[k].f
    ensures states[m].f.resumeError == states[k].f.resumeError
    ensures Rank(states[k].f) == 0 && states[k].f.resumeError.Some? ==> states[m].f == states[k].f
  {
    RunInv(ctx, states, ops, k);
    if k < m {
      OnlyForward(ctx, states, ops, k, m - 1);
      RunInv(ctx, states, ops, m - 1);
      if ops[m - 1].DoInvoke? { InvokeForward(ctx, states[m - 1], ops[m - 1].q, ops[m - 1].a); }
    }
  }

  lemma RefusedForGood(ctx: Context, s: Sys, op: Op)
    requires Inv(ctx, s) && IsUnbound(s.f) && s.f.resumeError.Some?
    ensures var s' := Apply(ctx, s, op);
            s'.f == s.f && s'.w.evidence == s.w.evidence && s'.w.closes == s.w.closes
  {
    if op.DoInvoke? { InvokeForward(ctx, s, op.q, op.a); }
  }

  /** A failed resume is for good: whatever is invoked or closed afterwards, the adapter stays
      unbound, every host it composed is closed, and no evidence is written again. */
  lemma {:induction false} FailedResumeIsFinal(ctx: Context, states: seq<Sys>, ops: seq<Op>, k: nat)
    requires IsRun(ctx, states, ops) && k <= |ops| && states[0].f.resumeError.Some?
    ensures states[k].f == states[0].f && IsUnbound(states[k].f)
    ensures states[k].w.evidence == states[0].w.evidence && states[k].w.closes == states[0].w.closes
    ensures forall h :: 0 <= h < |states[k].w.closes| ==> states[k].w.closes[h] == 1
  {
    RunInv(ctx, states, ops, k);
    if k == 0 {
      var w, a :| Fresh(w) && states[0] == Start(ctx, w, a);
      ResumeOutcome(ctx, w, a);
    } else {
      FailedResumeIsFinal(ctx, states, ops, k - 1);
      RunInv(ctx, states, ops, k - 1);
      RefusedForGood(ctx, states[k - 1], ops[k - 1]);
    }
  }
}
