/** The adapter as the objects the code keeps: the fields of one session's adapter, and the
    process state it shares, updated in place.  Each method is proved to do what its function
    in `AdapterSpec` says. */
module Adapter {
  import opened Wrappers
  import opened AdapterSpec
  import R = AdapterRuns

  /** The global dispatcher, every host composed, and the session's record in every home that has one. */
  class Process {
    var dispatcher: Option<Dispatcher>
    var closes: seq<nat>
    var evidence: map<string, Record>
    ghost var torn: set<string>
    ghost var seat: Option<string>

    ghost function View(): World
      reads this
    {
      World(dispatcher, closes, evidence, torn, seat)
    }

    constructor (dispatcher: Option<Dispatcher>, evidence: map<string, Record>)
      ensures View() == World(dispatcher, [], evidence, {}, None)
    {
      this.dispatcher, this.closes, this.evidence, this.torn, this.seat := dispatcher, [], evidence, {}, None;
    }

    method ComposeHost(ctx: Context, project: string, c: Composed, global: bool) returns (host: Option<Host>)
      modifies this
      ensures (View(), host) == Compose(ctx, old(View()), project, c, global)
    {
      if !ctx.runtimeConfig { return None; }
      match c
      case NotBuilt(touched) =>
        if touched && global { dispatcher := Some(Stray); }
        host := None;
      case Built(candidate, plan, roots) =>
        if candidate.listing.project != project { return None; }
        var id := |closes|;
        closes := closes + [0];
        if global { dispatcher := Some(OfHost(id)); }
        host := Some(Host(id, candidate, Binding(id, ctx.origin, project, plan, roots)));
    }

    /** `_close_activation_runtime`, which never raises. */
    method CloseRuntime(host: Option<Host>)
      modifies this`closes
      ensures View() == CloseHost(old(View()), host)
    {
      if host.Some? && host.value.id < |closes| {
        closes := closes[host.value.id := closes[host.value.id] + 1];
      }
    }

    /** Replaces the session's record in the file of one home. */
    method Replace(home: string, record: Option<Record>)
      modifies this`evidence
      ensures evidence == File(old(evidence), home, record) && Filed(evidence, home) == record
    {
      evidence := if record.Some? then evidence[home := record.value] else evidence - {home};
    }

    /** `_persist_verified`: write, read back, and put the old evidence back on failure. */
    method WriteVerified(home: string, content: Record, io: Io) returns (problem: Option<Code>)
      modifies this`evidence
      ensures (Filed(evidence, home), problem) == PersistVerified(Filed(old(evidence), home), content, io)
      ensures evidence == File(old(evidence), home, Filed(evidence, home))
    {
      var was := Filed(evidence, home);
      if io.replaced || !io.raised { Replace(home, Some(content)); }
      if !io.raised && io.readBack && Filed(evidence, home) == Some(content) { return None; }
      problem := Undo(home, was, io);
    }

    method Undo(home: string, was: Option<Record>, io: Io) returns (problem: Option<Code>)
      modifies this`evidence
      ensures problem.Some?
      ensures evidence == File(old(evidence), home, Filed(evidence, home))
      ensures !io.reread ==> Filed(evidence, home) == Filed(old(evidence), home) && problem == Some(RollbackFailed)
      ensures io.reread && Filed(old(evidence), home) == was ==>
                Filed(evidence, home) == was
                && problem == Some(if io.readUndone then PersistenceFailed else RollbackFailed)
      ensures io.reread && Filed(old(evidence), home) != was ==>
                && Filed(evidence, home) == Write(Filed(old(evidence), home), was, io.undone, io.undoRaised)
                && (problem == Some(PersistenceFailed) <==>
                      Filed(evidence, home) == was && io.readUndone && (io.undoRaised ==> io.rereadUndo))
                && (problem != Some(PersistenceFailed) ==> problem == Some(RollbackFailed))
    {
      if !io.reread {
        problem := Some(RollbackFailed);
      } else if Filed(evidence, home) == was {
        problem := Some(if io.readUndone then PersistenceFailed else RollbackFailed);
      } else {
        if io.undone || !io.undoRaised { Replace(home, was); }
        var restored := Filed(evidence, home) == was;
        var unverified := io.undoRaised && (!io.rereadUndo || !restored);
        problem := Some(if unverified || !io.readUndone || !restored then RollbackFailed else PersistenceFailed);
      }
    }

    /** `persist`, on the file of one home. */
    method PersistBinding(home: string, content: Record, expected: Option<Record>, io: Io)
      returns (problem: Option<Code>)
      modifies this`evidence, this`torn, this`seat
      ensures var (record, code) := Persist(Filed(old(evidence), home), content, expected, io);
              View() == Written(old(View()), home, record, code) && problem == code
    {
      var record := Filed(evidence, home);
      if !io.listed {
        problem := Some(PersistenceFailed);
      } else if record.Some? && expected.Some? {
        if record != expected || record.value.plan.Some? || content.plan.None?
           || record.value.project != content.project || record.value.fingerprint != content.fingerprint {
          problem := Some(BindingConflict);
        } else {
          problem := WriteVerified(home, content, io);
        }
      } else if record.Some? {
        problem := if record != Some(content) then Some(BindingConflict) else None;
      } else if expected.Some? {
        problem := Some(BindingConflict);
      } else if !io.roomLeft {
        problem := Some(PersistenceFailed);
      } else {
        problem := WriteVerified(home, content, io);
      }
      Note(home, problem);
    }

    /** `refresh_for_session`, on the file of one home. */
    method RefreshForSession(home: string, expected: Record, content: Record, io: Io) returns (problem: Option<Code>)
      modifies this`evidence, this`torn, this`seat
      ensures var (record, code) := Refresh(Filed(old(evidence), home), expected, content, io);
              View() == Written(old(View()), home, record, code) && problem == code
    {
      problem := IdentityProblem(expected, content);
      if !io.listed {
        problem := Some(PersistenceFailed);
      } else if Filed(evidence, home) != Some(expected) {
        problem := Some(BindingConflict);
      } else if problem.None? {
        if expected.roots != content.roots {
          problem := Some(AuthorityDenied);
        } else {
          problem := WriteVerified(home, content, io);
        }
      }
      Note(home, problem);
    }

    /** The history of a write that is over. */
    ghost method Note(home: string, problem: Option<Code>)
      modifies this`torn, this`seat
      ensures View() == Written(old(View()), home, Filed(old(evidence), home), problem)
    {
      torn := if problem == Some(RollbackFailed) then torn + {home} else if problem.None? then torn - {home} else torn;
      seat := if problem.None? then Some(home) else seat;
    }

    /** `locate_durable_context_binding`: the homes with evidence of the session. */
    method Locate(visible: set<string>) returns (homes: set<string>)
      ensures homes == Matches(evidence, visible)
    {
      homes := {};
      var rest := visible;
      while rest != {}
        invariant rest <= visible && homes == Matches(evidence, visible - rest)
        decreases |rest|
      {
        var home :| home in rest;
        assert visible - (rest - {home}) == (visible - rest) + {home};
        rest := rest - {home};
        if home in evidence { homes := homes + {home}; }
      }
      assert visible - rest == visible;
    }
  }

  class UnboundAdapter {
    const ctx: Context
    const process: Process
    var delegate: Option<Binding>
    var runtime: Option<Host>
    var binding: Option<Binding>
    var resumeError: Option<Code>

    function View(): Fields
      reads this
    {
      Fields(delegate, runtime, binding, resumeError)
    }

    constructor (ctx: Context, process: Process, a: Attempt)
      modifies process
      ensures this.ctx == ctx && this.process == process
      ensures (View(), process.View()) == Resume(ctx, old(process.View()), a)
      ensures old(R.Fresh(process.View())) ==> R.Inv(ctx, Snapshot())
    {
      this.ctx, this.process := ctx, process;
      delegate, runtime, binding, resumeError := None, None, None, None;
      new;
      ResumeIfAvailable(a);
      ghost var before := old(process.View());
      if R.Fresh(before) { R.ResumeOutcome(ctx, before, a); }
    }

    /** `_resume_context_if_available`, on a new adapter. */
    method ResumeIfAvailable(a: Attempt)
      requires View() == Unbound(None)
      modifies this, process
      ensures (View(), process.View()) == Resume(ctx, old(process.View()), a)
    {
      if !ctx.exact { return; }
      if !a.looksUp {
        resumeError := Some(AuthorityResolutionFailed);
        return;
      }
      var homes := process.Locate(a.visible);
      if |homes| > 1 {
        resumeError := Some(BindingConflict);
        return;
      }
      if homes == {} { return; }
      var previous := process.dispatcher;
      var activation := ReactivateHost(TheOne(homes), a);
      match activation
      case Ready(host) => delegate, runtime, binding := Some(host.binding), Some(host), Some(host.binding);
      case Failed(open, code) =>
        if ctx.bindGlobal { process.dispatcher := previous; }
        process.CloseRuntime(open);
        resumeError := Some(code);
    }

    method ReactivateHost(home: string, a: Attempt) returns (activation: Activation)
      requires home in process.evidence
      modifies process
      ensures (process.View(), activation) == Reactivate(ctx, old(process.View()), home, a)
    {
      var durable := process.evidence[home];
      activation := RecomposeHost(durable, a);
      if activation.Failed? { return; }
      if !a.readsBack { return Failed(Some(activation.host), ReadbackMismatch); }
      var problem := process.RefreshForSession(home, durable, RecordOf(ctx, activation.host), a.io);
      if problem.Some? { activation := Failed(Some(activation.host), problem.value); }
    }

    method RecomposeHost(durable: Record, a: Attempt) returns (activation: Activation)
      modifies process
      ensures (process.View(), activation) == Recompose(ctx, old(process.View()), durable, a)
    {
      var resolved := Resolve(ctx, durable.plan.Some?, a);
      if resolved.Err? { return Failed(None, resolved.error); }
      var resolution := resolved.value;
      if resolution.candidate.None? || ctx.fingerprint(resolution.candidate.value.listing) != durable.fingerprint {
        return Failed(None, ProjectContextMismatch);
      }
      var composed := process.ComposeHost(ctx, resolution.candidate.value.listing.project, a.composed, ctx.bindGlobal);
      if composed.None? { return Failed(None, AuthorityResolutionFailed); }
      var problem := RecomposeProblem(ctx, durable, composed.value, a);
      if problem.Some? {
        process.CloseRuntime(composed);
        activation := Failed(None, problem.value);
      } else {
        activation := Ready(composed.value);
      }
    }

    /** `_bind_unbound_context`. */
    method BindContext(promotion: bool, q: Request, a: Attempt) returns (problem: Option<Code>)
      modifies this, process
      ensures (View(), process.View(), problem) == Bind(ctx, old(View()), old(process.View()), promotion, q, a)
    {
      var previous := process.dispatcher;
      var previousRuntime := runtime;
      var prepared := Prepare(ctx, View(), promotion, q, a);
      if prepared.Err? { return Some(prepared.error); }
      var activation := ActivateHost(promotion, prepared.value, a);
      match activation
      case Failed(open, code) =>
        if ctx.bindGlobal { process.dispatcher := previous; }
        process.CloseRuntime(open);
        problem := Some(code);
      case Ready(host) =>
        delegate := Some(host.binding);
        runtime := Some(host);
        binding := Some(host.binding);
        if promotion && ctx.bindGlobal { process.dispatcher := Some(OfHost(host.id)); }
        if previousRuntime != Some(host) { process.CloseRuntime(previousRuntime); }
        problem := None;
    }

    method ActivateHost(promotion: bool, resolution: Resolution, a: Attempt) returns (activation: Activation)
      requires resolution.candidate.Some?
      modifies process
      ensures (process.View(), activation)
           == Activate(ctx, old(View()), old(process.View()), promotion, resolution, a)
    {
      if resolution.plan.Some? && !ctx.governance { return Failed(None, PlanAuthoritySourceUnavailable); }
      var composed := process.ComposeHost(
        ctx, resolution.candidate.value.listing.project, a.composed, ctx.bindGlobal && !promotion);
      if composed.None? { return Failed(None, AuthorityResolutionFailed); }
      var host := composed.value;
      var problem := HostProblem(ctx, resolution, host, a);
      if problem.None? { problem := SaveEvidence(promotion, host, a); }
      activation := if problem.Some? then Failed(Some(host), problem.value) else Ready(host);
    }

    method SaveEvidence(promotion: bool, host: Host, a: Attempt) returns (problem: Option<Code>)
      modifies process
      ensures (process.View(), problem) == Save(ctx, old(process.View()), old(View()), promotion, host, a)
    {
      if promotion && !a.looksUp { return Some(PersistenceFailed); }
      var home := host.evidence.home;
      var existing := if promotion then Filed(process.evidence, home) else None;
      if existing.Some? && binding.Some? && existing.value.roots != binding.value.roots {
        return Some(AuthorityDenied);
      }
      problem := process.PersistBinding(home, RecordOf(ctx, host), existing, a.io);
    }

    /** The adapter and its process as a run sees them. */
    ghost function Snapshot(): R.Sys
      reads this, process
    {
      R.Sys(View(), process.View())
    }

    /** `invoke`, as far as it touches the adapter's own state.  A valid adapter stays valid, and
        unless this invocation bound or promoted it, nothing it shares with others has changed. */
    method InvokeOperation(q: Request, a: Attempt) returns (problem: Option<Code>)
      modifies this, process
      ensures (View(), process.View(), problem) == Invoke(ctx, old(View()), old(process.View()), q, a)
      ensures old(R.Inv(ctx, Snapshot())) ==>
                && R.Inv(ctx, Snapshot()) && R.Forward(ctx, old(Snapshot()), Snapshot())
                && (R.Installs(ctx, old(Snapshot()), Snapshot())
                    || R.LeavesAlone(old(Snapshot()), Snapshot(), R.Attempted(ctx, a)))
                && (problem.Some? ==> R.LeavesAlone(old(Snapshot()), Snapshot(), R.Attempted(ctx, a)))
    {
      problem := Dispatch(q, a);
      ghost var before := old(Snapshot());
      if R.Inv(ctx, before) {
        R.InvokeAllOrNothing(ctx, before, q, a);
        R.StepInv(ctx, before, R.DoInvoke(q, a));
        R.InvokeForward(ctx, before, q, a);
      }
    }

    method Dispatch(q: Request, a: Attempt) returns (problem: Option<Code>)
      modifies this, process
      ensures (View(), process.View(), problem) == Invoke(ctx, old(View()), old(process.View()), q, a)
    {
      if delegate.Some? {
        if IsPromotion(View(), q) { problem := BindContext(true, q, a); } else { problem := None; }
        return;
      }
      if q.isContext && resumeError.Some? { return resumeError; }
      if q.isContext && !q.valid { return Some(InputInvalid); }
      if q.isContext && q.isBind { problem := BindContext(false, q, a); } else { problem := None; }
    }

    /** `close`.  A valid adapter has afterwards closed every host it ever composed, once. */
    method CloseAdapter()
      modifies this, process
      ensures (View(), process.View()) == Close(old(View()), old(process.View()))
      ensures old(R.Inv(ctx, Snapshot())) ==>
                && R.Inv(ctx, Snapshot()) && R.IsUnbound(View())
                && (forall h :: 0 <= h < |process.closes| ==> process.closes[h] == 1)
                && process.evidence == old(process.evidence) && process.dispatcher == old(process.dispatcher)
    {
      process.CloseRuntime(runtime);
      runtime, delegate, binding := None, None, None;
      ghost var before := old(Snapshot());
      if R.Inv(ctx, before) { R.StepInv(ctx, before, R.DoClose); }
    }
  }
}
