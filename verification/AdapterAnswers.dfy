/** What an adapter answers, whatever happens in the calls it makes: every check between a request
    and its effect, in the order in which they are made across the functions that make them. */
module AdapterAnswers {
  import opened Wrappers
  import opened AdapterSpec
  import opened AdapterRuns

  // ---------- one verified write ----------

  /** The file holds the new content afterwards: it was written, and the write passed, or nobody
      could tell, or taking it back failed. */
  ghost predicate Stays(io: Io) {
    (io.replaced || !io.raised) && ((!io.raised && io.readBack) || !io.reread || (io.undoRaised && !io.undone))
  }

  /** A failure is reported as an ordinary one only if a read shows the old content again. */
  ghost predicate RolledBack(same: bool, io: Io) {
    && io.reread && io.readUndone
    && (same || (io.raised && !io.replaced)
        || ((io.undone || !io.undoRaised) && (io.undoRaised ==> io.rereadUndo)))
  }

  ghost function WriteCode(same: bool, io: Io): Option<Code> {
    if !io.raised && io.readBack then None else Some(if RolledBack(same, io) then PersistenceFailed else RollbackFailed)
  }

  lemma VerifiedWrite(was: Option<Record>, content: Record, io: Io)
    ensures PersistVerified(was, content, io)
         == (if Stays(io) then Some(content) else was, WriteCode(was == Some(content), io))
  {
  }

  /** A bind's evidence is on record afterwards if and only if it was there already, or it was
      written, verified, and nothing or exactly the expected Project evidence stood in its place.
      Whatever else stands there, or has gone from there, is a conflict. */
  lemma PersistExact(was: Option<Record>, content: Record, expected: Option<Record>, io: Io)
    ensures var (file, problem) := Persist(was, content, expected, io);
            var expects := was.Some? && expected == was && Promotes(was.value, content);
            && (problem.None? <==>
                  && io.listed
                  && ((was == Some(content) && expected.None?)
                      || (!io.raised && io.readBack
                          && ((was.None? && expected.None? && io.roomLeft) || expects))))
            && (problem.None? ==> file == Some(content))
            && (problem == Some(BindingConflict) <==>
                  io.listed && (if expected.Some? then !expects else was.Some? && was != Some(content)))
            && (was.None? && expected.None? && io.listed && !io.roomLeft ==> problem == Some(PersistenceFailed))
            && (!io.listed ==> problem == Some(PersistenceFailed) && file == was)
  {
  }

  // ---------- refresh ----------

  /** A refresh stores the new evidence if and only if the file still holds what the caller read,
      the two are the same but for what was observed of the Plan's source, and the write is
      verified.  Another Plan, or a Plan where there was none, is a Plan mismatch. */
  lemma RefreshExact(was: Option<Record>, expected: Record, content: Record, io: Io)
    ensures var (file, problem) := Refresh(was, expected, content, io);
            var same := expected.project == content.project && expected.fingerprint == content.fingerprint;
            && (problem.None? <==>
                  && io.listed && was == Some(expected) && same && SamePlan(expected.plan, content.plan)
                  && expected.roots == content.roots && !io.raised && io.readBack)
            && (problem.None? ==> file == Some(content))
            && (problem == Some(BindingConflict) <==> io.listed && was != Some(expected))
            && (problem == Some(ProjectContextMismatch) <==> io.listed && was == Some(expected) && !same)
            && (problem == Some(PlanContextMismatch) <==>
                  io.listed && was == Some(expected) && same && !SamePlan(expected.plan, content.plan))
            && (problem == Some(AuthorityDenied) <==>
                  && io.listed && was == Some(expected) && same && SamePlan(expected.plan, content.plan)
                  && expected.roots != content.roots)
  {
  }

  // ---------- resume ----------

  /** Why an exact session whose evidence `durable` the lookup found does not resume. */
  ghost function RejoinCode(ctx: Context, durable: Record, a: Attempt): Option<Code> {
    var c := a.composed;
    if !ctx.registry || a.resolution.None? then Some(AuthorityResolutionFailed)
    else if durable.plan.Some? && (!ctx.governance || a.resolution.value.plan.None?) then
      Some(PlanAuthoritySourceUnavailable)
    else if a.resolution.value.candidate.None? then Some(ProjectContextMismatch)
    else
      var listing := a.resolution.value.candidate.value.listing;
      if ctx.fingerprint(listing) != durable.fingerprint then Some(ProjectContextMismatch)
      else if !ctx.runtimeConfig || !c.Built? || c.evidence.listing.project != listing.project then
        Some(AuthorityResolutionFailed)
      else if ctx.fingerprint(c.evidence.listing) != durable.fingerprint then Some(ProjectContextMismatch)
      else if durable.plan.None? && c.plan.Some? then Some(PlanContextMismatch)
      else if durable.plan.Some? && c.plan.None? then Some(StaleContext)
      else if !a.rootsOk then Some(AuthorityDenied)
      else if c.evidence.listing.project != durable.project then Some(ProjectContextMismatch)
      else if durable.plan.Some? && c.plan.value.identity != durable.plan.value.identity then Some(PlanContextMismatch)
      else if c.roots != durable.roots then Some(AuthorityDenied)
      else if !a.materializes then Some(AuthorityResolutionFailed)
      else if !a.readsBack then Some(ReadbackMismatch)
      else if !a.io.listed then Some(PersistenceFailed)
      else WriteCode(c.plan == durable.plan, a.io)
  }

  /** The lookup sees evidence of the session in this home. */
  ghost predicate Sees(w: World, a: Attempt, home: string) { home in w.evidence && home in a.visible }

  ghost function ResumeCode(ctx: Context, w: World, a: Attempt): Option<Code> {
    if !ctx.exact then None
    else if !a.looksUp then Some(AuthorityResolutionFailed)
    else if exists g, h :: g != h && Sees(w, a, g) && Sees(w, a, h) then Some(BindingConflict)
    else if home :| Sees(w, a, home) then RejoinCode(ctx, w.evidence[home], a)
    else None
  }

  lemma ReactivateAnswers(ctx: Context, w: World, home: string, a: Attempt)
    requires home in w.evidence
    ensures var (w1, activation) := Reactivate(ctx, w, home, a);
            var durable := w.evidence[home];
            && (activation.Ready? <==> RejoinCode(ctx, durable, a).None?)
            && (activation.Failed? ==> RejoinCode(ctx, durable, a) == Some(activation.code))
            && (activation.Ready? ==>
                  && w1.evidence == w.evidence[home := durable.(plan := a.composed.plan)]
                  && activation.host.binding.plan == a.composed.plan)
  {
    var (w1, activation) := Recompose(ctx, w, w.evidence[home], a);
    if activation.Ready? {
      var content := RecordOf(ctx, activation.host);
      assert content == w.evidence[home].(plan := a.composed.plan);
      VerifiedWrite(Some(w.evidence[home]), content, a.io);
    }
  }

  /** A resume reports the first check that fails, and is bound if it had evidence and none does:
      then the evidence is as it was, with the Plan as it is observed now. */
  lemma ResumeAnswers(ctx: Context, w: World, a: Attempt)
    ensures var (f, w') := Resume(ctx, w, a);
            && f.resumeError == ResumeCode(ctx, w, a)
            && (f.runtime.Some? <==>
                  ctx.exact && a.looksUp && (exists home :: Sees(w, a, home)) && ResumeCode(ctx, w, a).None?)
            && (f.runtime.Some? ==>
                  && f.runtime.value.binding.plan == a.composed.plan
                  && forall home :: Sees(w, a, home) ==>
                       w'.evidence == w.evidence[home := w.evidence[home].(plan := a.composed.plan)])
  {
    var homes := Matches(w.evidence, a.visible);
    forall home ensures Sees(w, a, home) <==> home in homes { }
    if |homes| > 1 {
      TwoSeen(w, a);
    } else if |homes| == 1 {
      assert Sees(w, a, TheOne(homes));
      ReactivateAnswers(ctx, w, TheOne(homes), a);
    }
  }

  lemma TwoSeen(w: World, a: Attempt)
    requires |Matches(w.evidence, a.visible)| > 1
    ensures exists g, h :: g != h && Sees(w, a, g) && Sees(w, a, h)
  {
    var homes := Matches(w.evidence, a.visible);
    var g :| g in homes;
    assert |homes - {g}| > 0;
    var h :| h in homes - {g};
    assert Sees(w, a, g) && Sees(w, a, h);
  }

  // ---------- bind ----------

  /** Why a host as composed may not be used for what was resolved. */
  ghost function HostCode(ctx: Context, resolution: Resolution, wantsPlan: bool, a: Attempt): Option<Code>
    requires resolution.candidate.Some? && a.composed.Built?
  {
    var (found, made) := (resolution.candidate.value, a.composed.evidence);
    if ctx.fingerprint(made.listing) != ctx.fingerprint(found.listing) || made.registry != found.registry then
      Some(StaleContext)
    else if wantsPlan && a.composed.plan != resolution.plan then Some(StaleContext)
    else if !wantsPlan && a.composed.plan.Some? then Some(PlanContextMismatch)
    else if !a.rootsOk then Some(AuthorityDenied)
    else if !a.materializes || !a.binds then Some(AuthorityResolutionFailed)
    else if !a.readsBack then Some(ReadbackMismatch)
    else None
  }

  /** From the resolved Project to a host that may be used; `current` is the fingerprint that a
      promotion has to find again. */
  ghost function ComposeCode(ctx: Context, wantsPlan: bool, current: Option<string>, a: Attempt): Option<Code> {
    if !ctx.registry then Some(ProjectRegistryRequired)
    else if a.resolution.None? then Some(AuthorityResolutionFailed)
    else if wantsPlan && (!ctx.governance || a.resolution.value.plan.None?) then Some(PlanAuthoritySourceUnavailable)
    else if a.resolution.value.candidate.None? then Some(ProjectNotFound)
    else
      var found := a.resolution.value.candidate.value;
      if current.Some? && ctx.fingerprint(found.listing) != current.value then Some(StaleContext)
      else if !ctx.runtimeConfig || !a.composed.Built? || a.composed.evidence.listing.project != found.listing.project
      then Some(AuthorityResolutionFailed)
      else HostCode(ctx, a.resolution.value, wantsPlan, a)
  }

  /** The evidence goes where there is none, or where this very evidence is. */
  ghost function FileCode(evidence: map<string, Record>, at: Filing, io: Io): Option<Code> {
    if !io.listed then Some(PersistenceFailed)
    else if at.home in evidence then if evidence[at.home] == at.record then None else Some(BindingConflict)
    else if !io.roomLeft then Some(PersistenceFailed)
    else WriteCode(false, io)
  }

  ghost function BindCode(ctx: Context, w: World, q: Request, a: Attempt): Option<Code> {
    var wantsPlan := q.plan.Some? && q.plan.value != "";
    if !ctx.exact then Some(SessionRecoveryRequired)
    else if q.project.None? || q.project.value == "" then Some(ContextLocatorRequired)
    else
      var code := ComposeCode(ctx, wantsPlan, None, a);
      if code.Some? then code else FileCode(w.evidence, Attempted(ctx, a).value, a.io)
  }

  /** A promotion's evidence takes the place of Project evidence of the same Project, fingerprint and roots,
      or goes where there is none. */
  ghost function PromoteCode(evidence: map<string, Record>, at: Filing, roots: string, io: Io): Option<Code> {
    if at.home !in evidence then
      if !io.listed || !io.roomLeft then Some(PersistenceFailed) else WriteCode(false, io)
    else
      var there := evidence[at.home];
      if there.roots != roots then Some(AuthorityDenied)
      else if !io.listed then Some(PersistenceFailed)
      else if there.plan.Some? || at.record.plan.None? || there.project != at.record.project
              || there.fingerprint != at.record.fingerprint then Some(BindingConflict)
      else WriteCode(false, io)
  }

  ghost function PromotionCode(ctx: Context, f: Fields, w: World, q: Request, a: Attempt): Option<Code> {
    if !ctx.exact then Some(SessionRecoveryRequired)
    else if f.delegate.None? || f.binding.None? then Some(ContextBindingRequired)
    else if f.binding.value.plan.Some? then Some(PlanContextMismatch)
    else if f.binding.value.session != ctx.origin then Some(SessionRecoveryRequired)
    else if f.runtime.None? then Some(AuthorityDenied)
    else if f.runtime.value.evidence.listing.project != f.binding.value.project then Some(StaleContext)
    else if !a.currentRootsOk then Some(AuthorityDenied)
    else if q.project.Some? && q.project.value == "" then Some(ContextLocatorRequired)
    else if q.project.Some? && q.project.value != f.binding.value.project then Some(ProjectContextMismatch)
    else
      var current := ctx.fingerprint(f.runtime.value.evidence.listing);
      var code := ComposeCode(ctx, q.plan.Some? && q.plan.value != "", Some(current), a);
      if code.Some? then code
      else if !a.looksUp then Some(PersistenceFailed)
      else PromoteCode(w.evidence, Attempted(ctx, a).value, f.binding.value.roots, a.io)
  }

  lemma FileAnswers(was: Option<Record>, content: Record, io: Io, evidence: map<string, Record>, home: string)
    requires was == Filed(evidence, home)
    ensures Persist(was, content, None, io).1 == FileCode(evidence, Filing(home, content), io)
  {
    VerifiedWrite(was, content, io);
  }

  lemma BindAnswers(ctx: Context, f: Fields, w: World, q: Request, a: Attempt)
    ensures Bind(ctx, f, w, false, q, a).2 == BindCode(ctx, w, q, a)
  {
    var code := ComposeCode(ctx, Given(q.plan), None, a);
    if ctx.exact && Given(q.project) && code.None? {
      var at := Attempted(ctx, a).value;
      FileAnswers(Filed(w.evidence, at.home), at.record, a.io, w.evidence, at.home);
    }
  }

  lemma PromoteAnswers(ctx: Context, w: World, f: Fields, host: Host, a: Attempt)
    requires f.binding.Some?
    ensures Save(ctx, w, f, true, host, a).1 ==
            if !a.looksUp then Some(PersistenceFailed)
            else PromoteCode(w.evidence, Filing(host.evidence.home, RecordOf(ctx, host)), f.binding.value.roots, a.io)
  {
    VerifiedWrite(Filed(w.evidence, host.evidence.home), RecordOf(ctx, host), a.io);
  }

  lemma PromotionAnswers(ctx: Context, f: Fields, w: World, q: Request, a: Attempt)
    ensures Bind(ctx, f, w, true, q, a).2 == PromotionCode(ctx, f, w, q, a)
  {
    var prepared := Prepare(ctx, f, true, q, a);
    if prepared.Ok? {
      var (w1, host) := Compose(ctx, w, prepared.value.candidate.value.listing.project, a.composed, false);
      if host.Some? && HostProblem(ctx, prepared.value, host.value, a).None? {
        PromoteAnswers(ctx, w1, f, host.value, a);
      }
    }
  }

  // ---------- what an invocation answers in a run ----------

  /** A valid bind request for a Plan, in the bound Project if it names one. */
  ghost predicate AsksPromotion(f: Fields, q: Request)
    requires f.binding.Some?
  {
    && q.isContext && q.valid && q.isBind && q.plan.Some? && q.plan.value != ""
    && (q.project.None? || q.project.value == f.binding.value.project)
  }

  /** In any run, a Project-bound session runs the transaction for just these requests, and
      reports its first failing check.  Every other request of it, and every request of a
      Plan-bound session, goes to what is installed: nothing of the adapter's changes. */
  lemma BoundAnswers(ctx: Context, states: seq<Sys>, ops: seq<Op>, k: nat, q: Request, a: Attempt)
    requires IsRun(ctx, states, ops) && k < |ops| && ops[k] == DoInvoke(q, a) && Rank(states[k].f) > 0
    ensures var s, s' := states[k], states[k + 1];
            var answer := Invoke(ctx, s.f, s.w, q, a).2;
            && s.f.runtime.Some? && s.f.binding.Some?
            && (if Rank(s.f) == 1 && AsksPromotion(s.f, q) then answer == PromotionCode(ctx, s.f, s.w, q, a)
                else answer.None? && s' == s)
  {
    RunInv(ctx, states, ops, k);
    var f := states[k].f;
    PromotionAnswers(ctx, f, states[k].w, q, a);
  }

  /** An unbound session answers a context request with the error of its failed resume, if any; an
      invalid one as such; and a bind with its first failing check.  Nothing else has an effect. */
  lemma UnboundAnswers(ctx: Context, states: seq<Sys>, ops: seq<Op>, k: nat, q: Request, a: Attempt)
    requires IsRun(ctx, states, ops) && k < |ops| && ops[k] == DoInvoke(q, a) && Rank(states[k].f) == 0
    ensures var s, s' := states[k], states[k + 1];
            var answer := Invoke(ctx, s.f, s.w, q, a).2;
            if q.isContext && s.f.resumeError.None? && q.valid && q.isBind then answer == BindCode(ctx, s.w, q, a)
            else
              && s' == s
              && answer == (if !q.isContext then None
                            else if s.f.resumeError.Some? then s.f.resumeError
                            else if !q.valid then Some(InputInvalid)
                            else None)
  {
    RunInv(ctx, states, ops, k);
    BindAnswers(ctx, states[k].f, states[k].w, q, a);
  }
}
