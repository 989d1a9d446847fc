/** Where a session's durable evidence comes to stand, and what that means for the next process
    that resumes it.  Every Project keeps the evidence in a file of its own, and nothing compares
    the files with each other when one is written. */
module AdapterEvidence {
  import opened Wrappers
  import opened AdapterSpec
  import opened AdapterRuns

  // ---------- resuming a bound session ----------

  lemma MatchesAll(evidence: map<string, Record>, visible: set<string>)
    requires evidence.Keys <= visible
    ensures Matches(evidence, visible) == evidence.Keys && |evidence.Keys| == |evidence|
  {
    assert evidence.Keys == set home | home in evidence;
  }

  lemma OneHome(homes: set<string>, home: string)
    requires |homes| == 1 && home in homes
    ensures TheOne(homes) == home
  {
  }

  /** A restart of any bound session of any run.  A new adapter in a new process binds if and only
      if its lookup sees evidence in exactly one home and the adapter can rejoin it.  If that is
      the session's seat, it binds to the same Project and fingerprint; and where the evidence is
      what was installed, also at the same rank, with the same Plan identity and roots.  (After
      an unverifiable rollback it may be the Plan evidence of the promotion that failed.)  If the
      lookup sees evidence in two homes it reports a conflict. */
  lemma RestartRoundTrip(ctx: Context, states: seq<Sys>, ops: seq<Op>, k: nat, ctx': Context, w: World, a: Attempt)
    requires IsRun(ctx, states, ops) && k <= |ops| && Rank(states[k].f) > 0
    requires Fresh(w) && w.evidence == states[k].w.evidence
    ensures var s, s', homes := states[k], Start(ctx', w, a), Matches(w.evidence, a.visible);
            && s.w.seat.Some? && s.w.seat.value in w.evidence
            && (Rank(s'.f) > 0 <==> |homes| == 1 && Rejoins(ctx', w.evidence[TheOne(homes)], a))
            && (Rank(s'.f) > 0 && s.w.seat.value in a.visible ==> Rejoined(ctx, s, ctx', s'))
            && (|homes| > 1 && ctx'.exact && a.looksUp ==> s'.f.resumeError == Some(BindingConflict))
            && (Rank(s'.f) == 0 && homes != {} ==> s'.f.resumeError.Some? || !ctx'.exact)
  {
    var homes := Matches(w.evidence, a.visible);
    RunInv(ctx, states, ops, k);
    ResumeOutcome(ctx', w, a);
    ResumeSucceeds(ctx', w, a);
    if Rank(Start(ctx', w, a).f) > 0 && states[k].w.seat.value in a.visible {
      OneHome(homes, states[k].w.seat.value);
      RejoinsSeat(ctx, states[k], ctx', w, a);
    }
  }

  /** `s'` is bound to what `s` was bound to. */
  ghost predicate Rejoined(ctx: Context, s: Sys, ctx': Context, s': Sys) {
    && s.f.runtime.Some? && s'.f.runtime.Some? && s.f.binding.Some? && s'.f.binding.Some?
    && s'.w.seat == s.w.seat && s.w.seat.Some?
    && s'.f.binding.value.project == s.f.binding.value.project
    && ctx'.fingerprint(s'.f.runtime.value.evidence.listing) == ctx.fingerprint(s.f.runtime.value.evidence.listing)
    && Rank(s'.f) >= Rank(s.f)
    && (s.w.seat.value !in s.w.torn ==>
          && Rank(s'.f) == Rank(s.f)
          && SamePlan(s.f.binding.value.plan, s'.f.binding.value.plan)
          && s'.f.binding.value.roots == s.f.binding.value.roots)
  }

  lemma RejoinsSeat(ctx: Context, s: Sys, ctx': Context, w: World, a: Attempt)
    requires Inv(ctx, s) && Rank(s.f) > 0 && Fresh(w) && w.evidence == s.w.evidence
    requires var homes := Matches(w.evidence, a.visible); |homes| == 1 && s.w.seat == Some(TheOne(homes))
    requires Rank(Start(ctx', w, a).f) > 0
    ensures Rejoined(ctx, s, ctx', Start(ctx', w, a))
  {
    ReactivateOutcome(ctx', w, s.w.seat.value, a);
    ResumeOutcome(ctx', w, a);
  }

  /** A bound session of a run can be resumed by a process that sees all its evidence, with
      whatever context and however well everything goes, if and only if exactly one home has any. */
  lemma ResumableExactly(ctx: Context, states: seq<Sys>, ops: seq<Op>, k: nat, w: World)
    requires IsRun(ctx, states, ops) && k <= |ops| && Rank(states[k].f) > 0
    requires Fresh(w) && w.evidence == states[k].w.evidence
    ensures (exists ctx': Context, a: Attempt :: w.evidence.Keys <= a.visible && Rank(Start(ctx', w, a).f) > 0)
            <==> |w.evidence| == 1
  {
    RunInv(ctx, states, ops, k);
    forall ctx': Context, a: Attempt | w.evidence.Keys <= a.visible && Rank(Start(ctx', w, a).f) > 0
      ensures |w.evidence| == 1
    {
      MatchesAll(w.evidence, a.visible);
      RestartRoundTrip(ctx, states, ops, k, ctx', w, a);
    }
    if |w.evidence| == 1 { CanRejoin(ctx, states[k], w); }
  }

  lemma CanRejoin(ctx: Context, s: Sys, w: World)
    requires Inv(ctx, s) && Rank(s.f) > 0 && Fresh(w) && w.evidence == s.w.evidence && |w.evidence| == 1
    ensures exists ctx': Context, a: Attempt :: w.evidence.Keys <= a.visible && Rank(Start(ctx', w, a).f) > 0
  {
    var home, found := s.w.seat.value, s.f.runtime.value.evidence;
    var durable := w.evidence[home];
    var ctx' := Context("", true, true, true, true, false, ctx.fingerprint);
    var a := Attempt(true, Some(Resolution(Some(found), durable.plan)), Built(found, durable.plan, durable.roots),
                     true, true, true, true, true, w.evidence.Keys, GoodIo());
    MatchesAll(w.evidence, a.visible);
    OneHome(w.evidence.Keys, home);
    assert Rejoins(ctx', durable, a);
    ResumeSucceeds(ctx', w, a);
    ResumeOutcome(ctx', w, a);
  }

  // ---------- evidence stays ----------

  lemma StepKeeps(ctx: Context, s: Sys, op: Op)
    requires Inv(ctx, s)
    ensures s.w.evidence.Keys <= Apply(ctx, s, op).w.evidence.Keys
  {
    if op.DoInvoke? { InvokeAllOrNothing(ctx, s, op.q, op.a); }
  }

  /** A home that has evidence of the session keeps some for the rest of the run. */
  lemma {:induction false} EvidenceStays(ctx: Context, states: seq<Sys>, ops: seq<Op>, k: nat, m: nat)
    requires IsRun(ctx, states, ops) && k <= m <= |ops|
    ensures states[k].w.evidence.Keys <= states[m].w.evidence.Keys
  {
    if k < m {
      EvidenceStays(ctx, states, ops, k, m - 1);
      RunInv(ctx, states, ops, m - 1);
      StepKeeps(ctx, states[m - 1], ops[m - 1]);
    }
  }

  lemma Powerless(ctx: Context, s: Sys, op: Op)
    requires !Composes(ctx) && s.f.runtime.None?
    ensures Apply(ctx, s, op).w.evidence == s.w.evidence
  {
  }

  /** Two homes in sight are for good: whatever an adapter started on them is asked, in whatever
      context, it stays unbound and writes no evidence. */
  lemma {:induction false} SplitIsFinal(
    ctx: Context, w: World, a: Attempt, states: seq<Sys>, ops: seq<Op>, k: nat)
    requires IsRun(ctx, states, ops) && k <= |ops| && Fresh(w) && states[0] == Start(ctx, w, a)
    requires |Matches(w.evidence, a.visible)| > 1
    ensures IsUnbound(states[k].f) && states[k].w.evidence == w.evidence
  {
    RunInv(ctx, states, ops, k);
    if ctx.exact {
      FailedResumeIsFinal(ctx, states, ops, k);
    } else {
      ComposesNothing(ctx, states, ops, k);
      if k > 0 {
        SplitIsFinal(ctx, w, a, states, ops, k - 1);
        ComposesNothing(ctx, states, ops, k - 1);
        Powerless(ctx, states[k - 1], ops[k - 1]);
      }
    }
  }

  // ---------- how a second home comes to hold evidence ----------

  /** What an invocation answers. */
  function Answer(ctx: Context, s: Sys, op: Op): Option<Code> {
    if op.DoInvoke? then Invoke(ctx, s.f, s.w, op.q, op.a).2 else None
  }

  ghost predicate AddsHome(ctx: Context, s: Sys, op: Op) { Apply(ctx, s, op).w.evidence.Keys != s.w.evidence.Keys }

  /** What can divide a session's evidence: its adapter is closed, a write reports that its
      rollback failed, or a promotion files its evidence in a new home. */
  ghost predicate Divides(ctx: Context, s: Sys, op: Op) {
    op.DoClose? || Answer(ctx, s, op) == Some(RollbackFailed) || (Rank(s.f) == 1 && AddsHome(ctx, s, op))
  }

  /** At most one home has evidence, and none while a bind may still start. */
  ghost predicate Whole(ctx: Context, s: Sys) {
    && |s.w.evidence| <= 1
    && (Rank(s.f) == 0 && s.f.resumeError.None? && ctx.exact ==> s.w.evidence == map[])
  }

  /** A run whose resume sees all the evidence there is, in at most one home. */
  ghost predicate StartsWhole(ctx: Context, s: Sys) {
    exists w: World, a: Attempt ::
      Fresh(w) && |w.evidence| <= 1 && w.evidence.Keys <= a.visible && s == Start(ctx, w, a)
  }

  lemma StartWhole(ctx: Context, s: Sys)
    requires StartsWhole(ctx, s)
    ensures Whole(ctx, s)
  {
    var w: World, a: Attempt :| Fresh(w) && |w.evidence| <= 1 && w.evidence.Keys <= a.visible && s == Start(ctx, w, a);
    ResumeOutcome(ctx, w, a);
    MatchesAll(w.evidence, a.visible);
    assert |s.w.evidence.Keys| == |s.w.evidence|;
    assert s.w.evidence.Keys == w.evidence.Keys;
  }

  lemma StepWhole(ctx: Context, s: Sys, op: Op)
    requires Inv(ctx, s) && Whole(ctx, s) && !Divides(ctx, s, op)
    ensures Whole(ctx, Apply(ctx, s, op))
  {
    if op.DoInvoke? {
      var s' := Apply(ctx, s, op);
      InvokeAllOrNothing(ctx, s, op.q, op.a);
      InvokeForward(ctx, s, op.q, op.a);
      assert |s'.w.evidence| == |s'.w.evidence.Keys| && |s.w.evidence| == |s.w.evidence.Keys|;
    }
  }

  /** Never without: the evidence of a session that started whole stays in one home until a close,
      a reported rollback failure, or a promotion in another home. */
  lemma {:induction false} WholeUntilDivided(ctx: Context, states: seq<Sys>, ops: seq<Op>, k: nat)
    requires IsRun(ctx, states, ops) && k <= |ops| && StartsWhole(ctx, states[0])
    requires forall j :: 0 <= j < k ==> !Divides(ctx, states[j], ops[j])
    ensures Whole(ctx, states[k])
  {
    if k == 0 {
      StartWhole(ctx, states[0]);
    } else {
      WholeUntilDivided(ctx, states, ops, k - 1);
      RunInv(ctx, states, ops, k - 1);
      StepWhole(ctx, states[k - 1], ops[k - 1]);
    }
  }

  // ---------- one invocation that adds a home ----------

  lemma {:induction false} Longer(homes: set<string>) returns (n: nat)
    ensures forall home :: home in homes ==> |home| < n
  {
    n := 0;
    if home :| home in homes {
      n := Longer(homes - {home});
      if n <= |home| { n := |home| + 1; }
    }
  }

  lemma NewHome(homes: set<string>) returns (home: string)
    ensures home !in homes
  {
    var n := Longer(homes);
    home := seq(n, _ => 'x');
  }

  /** A bind or promotion of Project and host `found`, with file operations as in `io`. */
  function Try(found: Candidate, plan: Option<Plan>, roots: string, io: Io): Attempt {
    Attempt(true, Some(Resolution(Some(found), plan)), Built(found, plan, roots),
            true, true, true, true, true, {}, io)
  }

  function BindOf(project: string, home: string, io: Io): Op {
    DoInvoke(Request(true, true, true, Some(project), None),
             Try(Candidate(Listing(project, "", "", "", "", ""), home, "g"), None, "r", io))
  }

  function PromotionOf(found: Candidate): Op {
    DoInvoke(Request(true, true, true, None, Some("i")), Try(found, Some(Plan("i", "o")), "r", GoodIo()))
  }

  /** The write replaces the file, the readback fails, and so does the read of the rollback. */
  function TornIo(): Io { Io(true, true, true, false, false, false, true, false, true, true) }

  ghost predicate MayBind(ctx: Context, s: Sys) {
    Inv(ctx, s) && Composes(ctx) && Rank(s.f) == 0 && s.f.resumeError.None?
  }

  lemma BindAdds(ctx: Context, s: Sys, project: string, home: string)
    requires project != "" && MayBind(ctx, s) && home !in s.w.evidence
    ensures var s' := Apply(ctx, s, BindOf(project, home, GoodIo()));
            && Inv(ctx, s') && Rank(s'.f) == 1 && s'.f.resumeError.None?
            && s'.w.evidence.Keys == s.w.evidence.Keys + {home}
            && Answer(ctx, s, BindOf(project, home, GoodIo())).None?
  {
    var op := BindOf(project, home, GoodIo());
    StepInv(ctx, s, op);
    FreshBindSucceeds(ctx, s.f, s.w, op.q, op.a);
    InvokeAllOrNothing(ctx, s, op.q, op.a);
    assert Apply(ctx, s, op).f.runtime.value.binding.plan.None?;
  }

  lemma TornBindAdds(ctx: Context, s: Sys, project: string, home: string)
    requires project != "" && MayBind(ctx, s) && home !in s.w.evidence
    ensures var s' := Apply(ctx, s, BindOf(project, home, TornIo()));
            && MayBind(ctx, s') && s'.w.evidence.Keys == s.w.evidence.Keys + {home}
            && Answer(ctx, s, BindOf(project, home, TornIo())) == Some(RollbackFailed)
  {
    var op := BindOf(project, home, TornIo());
    StepInv(ctx, s, op);
    assert Filed(s.w.evidence, home).None?;
    assert Prepare(ctx, s.f, false, op.q, op.a).Ok?;
  }

  lemma PromotionAdds(ctx: Context, s: Sys, home: string)
    requires Inv(ctx, s) && Composes(ctx) && ctx.governance && Rank(s.f) == 1 && home !in s.w.evidence
    ensures s.f.runtime.Some?
    ensures var op := PromotionOf(s.f.runtime.value.evidence.(home := home));
            var s' := Apply(ctx, s, op);
            && Rank(s'.f) == 2 && s'.w.evidence.Keys == s.w.evidence.Keys + {home}
            && Answer(ctx, s, op).None?
  {
    var op := PromotionOf(s.f.runtime.value.evidence.(home := home));
    PromotionSucceeds(ctx, s.f, s.w, op.q, op.a);
    InvokeAllOrNothing(ctx, s, op.q, op.a);
    InvokeForward(ctx, s, op.q, op.a);
  }

  lemma NeedsPower(ctx: Context, s: Sys, op: Op)
    requires Inv(ctx, s) && AddsHome(ctx, s, op)
    ensures s.f.resumeError.None? || Rank(s.f) > 0
    ensures Composes(ctx) && (Rank(s.f) == 0 || (Rank(s.f) == 1 && ctx.governance))
  {
    InvokeForward(ctx, s, op.q, op.a);
    if Rank(s.f) == 1 && !ctx.governance { NoPromotion(ctx, s, op.q, op.a); }
  }

  lemma NoPromotion(ctx: Context, s: Sys, q: Request, a: Attempt)
    requires Inv(ctx, s) && Rank(s.f) == 1 && !ctx.governance
    ensures Apply(ctx, s, DoInvoke(q, a)) == s
  {
  }

  /** In any reachable state, some invocation would file evidence in another home if and only if
      the context can compose and the session is either unbound with no failed resume, or bound to
      a Project in a context that has the governance inputs. */
  lemma NextHomeExact(ctx: Context, states: seq<Sys>, ops: seq<Op>, k: nat)
    requires IsRun(ctx, states, ops) && k <= |ops|
    ensures var s := states[k];
            (exists q, a :: AddsHome(ctx, s, DoInvoke(q, a))) <==>
              && Composes(ctx)
              && ((Rank(s.f) == 0 && s.f.resumeError.None?) || (Rank(s.f) == 1 && ctx.governance))
  {
    var s := states[k];
    RunInv(ctx, states, ops, k);
    forall q, a | AddsHome(ctx, s, DoInvoke(q, a))
      ensures Composes(ctx)
      ensures (Rank(s.f) == 0 && s.f.resumeError.None?) || (Rank(s.f) == 1 && ctx.governance)
    {
      NeedsPower(ctx, s, DoInvoke(q, a));
    }
    var home := NewHome(s.w.evidence.Keys);
    if Composes(ctx) && Rank(s.f) == 0 && s.f.resumeError.None? {
      BindAdds(ctx, s, "p", home);
      var op := BindOf("p", home, GoodIo());
      assert AddsHome(ctx, s, DoInvoke(op.q, op.a));
    } else if Composes(ctx) && Rank(s.f) == 1 && ctx.governance {
      PromotionAdds(ctx, s, home);
      var op := PromotionOf(s.f.runtime.value.evidence.(home := home));
      assert AddsHome(ctx, s, DoInvoke(op.q, op.a));
    }
  }

  // ---------- which contexts allow it ----------

  /** Without a close, or without a reported rollback failure, as asked. */
  ghost predicate Allows(ctx: Context, closing: bool, reporting: bool, s: Sys, op: Op) {
    (closing || !op.DoClose?) && (reporting || Answer(ctx, s, op) != Some(RollbackFailed))
  }

  ghost predicate IsAllowedRun(ctx: Context, closing: bool, reporting: bool, states: seq<Sys>, ops: seq<Op>) {
    && IsRun(ctx, states, ops) && StartsWhole(ctx, states[0])
    && forall j :: 0 <= j < |ops| ==> Allows(ctx, closing, reporting, states[j], ops[j])
  }

  ghost predicate Reaches(ctx: Context, closing: bool, reporting: bool, s: Sys) {
    exists states: seq<Sys>, ops: seq<Op> ::
      IsAllowedRun(ctx, closing, reporting, states, ops) && states[|ops|] == s
  }

  /** Bound, but no process that sees all its evidence can resume it. */
  ghost predicate Stranded(s: Sys) {
    && Rank(s.f) > 0
    && forall ctx': Context, w: World, a: Attempt ::
         Fresh(w) && w.evidence == s.w.evidence && w.evidence.Keys <= a.visible ==> Rank(Start(ctx', w, a).f) == 0
  }

  ghost predicate CanStrand(ctx: Context, closing: bool, reporting: bool) {
    exists s: Sys :: Reaches(ctx, closing, reporting, s) && Stranded(s)
  }

  /** In any run, the bound sessions that are stranded are those with evidence in two homes. */
  lemma StrandedExact(ctx: Context, states: seq<Sys>, ops: seq<Op>, k: nat)
    requires IsRun(ctx, states, ops) && k <= |ops| && Rank(states[k].f) > 0
    ensures Stranded(states[k]) <==> |states[k].w.evidence| > 1
  {
    var s := states[k];
    RunInv(ctx, states, ops, k);
    forall w: World | Fresh(w) && w.evidence == s.w.evidence
      ensures (exists ctx': Context, a: Attempt :: w.evidence.Keys <= a.visible && Rank(Start(ctx', w, a).f) > 0)
              <==> |s.w.evidence| == 1
    {
      ResumableExactly(ctx, states, ops, k, w);
    }
    assert Fresh(World(None, [], s.w.evidence, {}, None));
    assert s.w.evidence != map[];
  }

  lemma ReachFirst(ctx: Context, closing: bool, reporting: bool) returns (s: Sys)
    requires Composes(ctx)
    ensures Reaches(ctx, closing, reporting, s) && MayBind(ctx, s) && s.w.evidence == map[]
  {
    var w, a := World(None, [], map[], {}, None), BindOf("p", "h", GoodIo()).a;
    s := Start(ctx, w, a);
    ResumeOutcome(ctx, w, a);
    assert Fresh(w) && |w.evidence| <= 1 && w.evidence.Keys <= a.visible;
    assert StartsWhole(ctx, s);
    assert IsAllowedRun(ctx, closing, reporting, [s], []);
  }

  lemma ReachNext(ctx: Context, closing: bool, reporting: bool, s: Sys, op: Op)
    requires Reaches(ctx, closing, reporting, s) && Allows(ctx, closing, reporting, s, op)
    ensures Reaches(ctx, closing, reporting, Apply(ctx, s, op))
  {
    var states: seq<Sys>, ops: seq<Op> :|
      IsAllowedRun(ctx, closing, reporting, states, ops) && states[|ops|] == s;
    var states', ops' := states + [Apply(ctx, s, op)], ops + [op];
    assert states'[0] == states[0];
    forall j | 0 <= j < |ops'|
      ensures states'[j + 1] == Apply(ctx, states'[j], ops'[j])
      ensures Allows(ctx, closing, reporting, states'[j], ops'[j])
    {
      if j < |ops| { assert states'[j] == states[j] && states'[j + 1] == states[j + 1] && ops'[j] == ops[j]; }
    }
    assert IsAllowedRun(ctx, closing, reporting, states', ops');
  }

  lemma StrandAt(ctx: Context, closing: bool, reporting: bool, s: Sys)
    requires Reaches(ctx, closing, reporting, s) && Rank(s.f) > 0 && s.w.evidence.Keys == {"h", "i"}
    ensures CanStrand(ctx, closing, reporting)
  {
    assert |s.w.evidence| == |s.w.evidence.Keys|;
    var states: seq<Sys>, ops: seq<Op> :|
      IsAllowedRun(ctx, closing, reporting, states, ops) && states[|ops|] == s;
    StrandedExact(ctx, states, ops, |ops|);
  }

  /** Bind in one Project, close, bind in another. */
  lemma StrandByClose(ctx: Context, reporting: bool)
    requires Composes(ctx)
    ensures CanStrand(ctx, true, reporting)
  {
    var s := ReachFirst(ctx, true, reporting);
    var p, q := BindOf("p", "h", GoodIo()), BindOf("q", "i", GoodIo());
    var s1 := Apply(ctx, s, p);
    var s2 := Apply(ctx, s1, DoClose);
    BindAdds(ctx, s, "p", "h");
    ReachNext(ctx, true, reporting, s, p);
    StepInv(ctx, s1, DoClose);
    ReachNext(ctx, true, reporting, s1, DoClose);
    BindAdds(ctx, s2, "q", "i");
    ReachNext(ctx, true, reporting, s2, q);
    StrandAt(ctx, true, reporting, Apply(ctx, s2, q));
  }

  /** Bind in one Project with a write whose rollback fails, then bind in another; no close. */
  lemma StrandByReport(ctx: Context, closing: bool)
    requires Composes(ctx)
    ensures CanStrand(ctx, closing, true)
  {
    var s := ReachFirst(ctx, closing, true);
    var p, q := BindOf("p", "h", TornIo()), BindOf("q", "i", GoodIo());
    var s1 := Apply(ctx, s, p);
    TornBindAdds(ctx, s, "p", "h");
    ReachNext(ctx, closing, true, s, p);
    BindAdds(ctx, s1, "q", "i");
    ReachNext(ctx, closing, true, s1, q);
    StrandAt(ctx, closing, true, Apply(ctx, s1, q));
  }

  /** Bind to a Project, and promote after its workspace has moved, which its fingerprint does not
      show; no close, and every invocation succeeds. */
  lemma StrandByMove(ctx: Context, closing: bool, reporting: bool)
    requires Composes(ctx) && ctx.governance
    ensures CanStrand(ctx, closing, reporting)
  {
    var s := ReachFirst(ctx, closing, reporting);
    var p := BindOf("p", "h", GoodIo());
    var s1 := Apply(ctx, s, p);
    BindAdds(ctx, s, "p", "h");
    ReachNext(ctx, closing, reporting, s, p);
    PromotionAdds(ctx, s1, "i");
    var q := PromotionOf(s1.f.runtime.value.evidence.(home := "i"));
    ReachNext(ctx, closing, reporting, s1, q);
    StrandAt(ctx, closing, reporting, Apply(ctx, s1, q));
  }

  /** A session that started whole can be stranded if and only if its context can compose at all
      and at least one of the three causes is possible: a close, a reported rollback failure, or,
      in a context with the governance inputs, a promotion. */
  lemma StrandingExact(ctx: Context, closing: bool, reporting: bool)
    ensures CanStrand(ctx, closing, reporting) <==> Composes(ctx) && (closing || reporting || ctx.governance)
  {
    if Composes(ctx) && (closing || reporting || ctx.governance) {
      if closing { StrandByClose(ctx, reporting); }
      else if reporting { StrandByReport(ctx, closing); }
      else { StrandByMove(ctx, closing, reporting); }
    } else {
      forall s: Sys | Reaches(ctx, closing, reporting, s) ensures !Stranded(s) {
        var states: seq<Sys>, ops: seq<Op> :|
          IsAllowedRun(ctx, closing, reporting, states, ops) && states[|ops|] == s;
        NeverStranded(ctx, closing, reporting, states, ops);
      }
    }
  }

  lemma NeverStranded(ctx: Context, closing: bool, reporting: bool, states: seq<Sys>, ops: seq<Op>)
    requires IsAllowedRun(ctx, closing, reporting, states, ops)
    requires !Composes(ctx) || !(closing || reporting || ctx.governance)
    ensures !Stranded(states[|ops|])
  {
    if !Composes(ctx) {
      ComposesNothing(ctx, states, ops, |ops|);
      RunInv(ctx, states, ops, |ops|);
    } else {
      forall j | 0 <= j < |ops| ensures !Divides(ctx, states[j], ops[j]) {
        assert Allows(ctx, closing, reporting, states[j], ops[j]);
        RunInv(ctx, states, ops, j);
        if AddsHome(ctx, states[j], ops[j]) { NeedsPower(ctx, states[j], ops[j]); }
      }
      WholeUntilDivided(ctx, states, ops, |ops|);
      if Rank(states[|ops|].f) > 0 { StrandedExact(ctx, states, ops, |ops|); }
    }
  }
}
