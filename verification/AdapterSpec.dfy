/** What each operation of `_UnboundAotaAdapter` does to the adapter's own fields and to what
    it shares with the process: the global dispatcher, the hosts it composed, and the session's
    durable evidence, of which every Project keeps a record of its own under its home directory.
    Calls whose code is elsewhere are arguments (`Attempt`). */
module AdapterSpec {
  import opened Wrappers

  /** A Plan's identity, and the revision and digest of its source as last observed. */
  datatype Plan = Plan(identity: string, observed: string)

  /** Durable evidence for the session; two records have one digest only if they are equal. */
  datatype Record = Record(project: string, fingerprint: string, plan: Option<Plan>, roots: string)

  /** What a workspace's registry lists of a Project, and what its fingerprint is taken of. */
  datatype Listing = Listing(
    project: string, name: string, kind: string, status: string, root: string, manifest: string)

  /** A resolved Project: its listing, the directory it has its home in, and the fingerprint of
      the registry it was found in. */
  datatype Candidate = Candidate(listing: Listing, home: string, registry: string)

  /** A trusted binding, with the host it was composed for. */
  datatype Binding = Binding(host: nat, session: string, project: string, plan: Option<Plan>, roots: string)

  /** A composed runtime, with the singular Project candidate it was composed for. */
  datatype Host = Host(id: nat, evidence: Candidate, binding: Binding)

  datatype Dispatcher = Foreign(name: string) | OfHost(id: nat) | Stray

  /** `closes[h]` counts the closes of host `h`; `evidence` holds the session's record in each
      home that has one.  Two are history: `torn` are the homes where, since the last verified
      write, a rollback could not be verified, and `seat` the home of the last verified write. */
  datatype World = World(
    dispatcher: Option<Dispatcher>, closes: seq<nat>, evidence: map<string, Record>,
    torn: set<string>, seat: Option<string>)

  datatype Fields = Fields(
    delegate: Option<Binding>, runtime: Option<Host>, binding: Option<Binding>, resumeError: Option<Code>)

  datatype Context = Context(
    origin: string, exact: bool,   // is the origin a bound session reference
    registry: bool,                // is there a registry path
    runtimeConfig: bool,           // is there a runtime configuration path
    governance: bool,              // are there a governance base and store
    bindGlobal: bool,
    fingerprint: Listing -> string)

  datatype Code =
    | SessionRecoveryRequired | ContextBindingRequired | PlanContextMismatch | AuthorityDenied | StaleContext
    | ContextLocatorRequired | ProjectContextMismatch | ProjectRegistryRequired | ProjectNotFound
    | PlanAuthoritySourceUnavailable | AuthorityResolutionFailed | ReadbackMismatch
    | PersistenceFailed | BindingConflict | RollbackFailed | InputInvalid

  // ---------- durable evidence ----------

  /** How the file operations of one verified write go: whether each write replaced the file and
      whether it raised, and whether each read succeeded. */
  datatype Io = Io(
    listed: bool, roomLeft: bool,
    replaced: bool, raised: bool, readBack: bool,
    reread: bool, undone: bool, undoRaised: bool, rereadUndo: bool, readUndone: bool)

  /** A write that does not raise has replaced the file; one that raises may have. */
  function Write(file: Option<Record>, content: Option<Record>, replaced: bool, raised: bool): Option<Record> {
    if replaced || !raised then content else file
  }

  /** `_persist_verified`. */
  function PersistVerified(was: Option<Record>, content: Record, io: Io): (Option<Record>, Option<Code>) {
    var file := Write(was, Some(content), io.replaced, io.raised);
    if !io.raised && io.readBack && file == Some(content) then (file, None)
    else if !io.reread then (file, Some(RollbackFailed))
    else if file == was then (file, Some(if io.readUndone then PersistenceFailed else RollbackFailed))
    else
      var back := Write(file, was, io.undone, io.undoRaised);
      if io.undoRaised && (!io.rereadUndo || back != was) then (back, Some(RollbackFailed))
      else if !io.readUndone || back != was then (back, Some(RollbackFailed))
      else (back, Some(PersistenceFailed))
  }

  /** `persist`, with the Project record a promotion expects to replace. */
  function Persist(was: Option<Record>, content: Record, expected: Option<Record>, io: Io)
    : (Option<Record>, Option<Code>)
  {
    if !io.listed then (was, Some(PersistenceFailed))
    else
      match (was, expected)
      case (Some(current), Some(e)) =>
        if current != e || current.plan.Some? || content.plan.None?
           || current.project != content.project || current.fingerprint != content.fingerprint
        then (was, Some(BindingConflict))
        else PersistVerified(was, content, io)
      case (Some(current), None) => if current != content then (was, Some(BindingConflict)) else (was, None)
      case (None, Some(_)) => (was, Some(BindingConflict))
      case (None, None) => if !io.roomLeft then (was, Some(PersistenceFailed)) else PersistVerified(was, content, io)
  }

  function PlanIdentity(plan: Option<Plan>): Option<string> {
    if plan.Some? then Some(plan.value.identity) else None
  }

  function IdentityProblem(durable: Record, current: Record): Option<Code> {
    if durable.project != current.project || durable.fingerprint != current.fingerprint then
      Some(ProjectContextMismatch)
    else if PlanIdentity(durable.plan) != PlanIdentity(current.plan) then Some(PlanContextMismatch)
    else None
  }

  /** `refresh_for_session`: only what was observed of the Plan's source may change. */
  function Refresh(was: Option<Record>, expected: Record, content: Record, io: Io): (Option<Record>, Option<Code>) {
    if !io.listed then (was, Some(PersistenceFailed))
    else if was != Some(expected) then (was, Some(BindingConflict))
    else
      match IdentityProblem(expected, content)
      case Some(code) => (was, Some(code))
      case None =>
        if expected.roots != content.roots then (was, Some(AuthorityDenied)) else PersistVerified(was, content, io)
  }

  /** The session's record in the file of one home. */
  function Filed(evidence: map<string, Record>, home: string): Option<Record> {
    if home in evidence then Some(evidence[home]) else None
  }

  function File(evidence: map<string, Record>, home: string, record: Option<Record>): map<string, Record> {
    if record.Some? then evidence[home := record.value] else evidence - {home}
  }

  /** What a write to the file of `home` that ended in `problem` leaves behind. */
  function Written(w: World, home: string, record: Option<Record>, problem: Option<Code>): World {
    w.(evidence := File(w.evidence, home, record),
       torn := if problem == Some(RollbackFailed) then w.torn + {home}
               else if problem.None? then w.torn - {home} else w.torn,
       seat := if problem.None? then Some(home) else w.seat)
  }

  // ---------- hosts and the dispatcher ----------

  datatype Composed =
    | Built(evidence: Candidate, plan: Option<Plan>, roots: string)
    | NotBuilt(touched: bool)   // nothing is left open, but the dispatcher may have been rebound

  /** `compose_thin_task_main_host`, which starts by reading the runtime configuration and then
      insists on singular evidence of the very Project. */
  function Compose(ctx: Context, w: World, project: string, c: Composed, global: bool): (World, Option<Host>) {
    if !ctx.runtimeConfig then (w, None)
    else
    match c
    case NotBuilt(touched) => (w.(dispatcher := if touched && global then Some(Stray) else w.dispatcher), None)
    case Built(evidence, plan, roots) =>
      if evidence.listing.project != project then (w, None)
      else
      var id := |w.closes|;
      (w.(closes := w.closes + [0], dispatcher := if global then Some(OfHost(id)) else w.dispatcher),
       Some(Host(id, evidence, Binding(id, ctx.origin, project, plan, roots))))
  }

  function CloseHost(w: World, host: Option<Host>): World {
    if host.Some? && host.value.id < |w.closes|
    then w.(closes := w.closes[host.value.id := w.closes[host.value.id] + 1])
    else w
  }

  /** What both transactions do when they raise: put the dispatcher back and close the host. */
  function Abort(ctx: Context, w: World, previous: Option<Dispatcher>, host: Option<Host>): World {
    CloseHost(if ctx.bindGlobal then w.(dispatcher := previous) else w, host)
  }

  /** What a transaction has when it stops: a host still to be closed, or one ready to install. */
  datatype Activation = Failed(open: Option<Host>, code: Code) | Ready(host: Host)

  function Install(host: Host, resumeError: Option<Code>): Fields {
    Fields(Some(host.binding), Some(host), Some(host.binding), resumeError)
  }

  function Unbound(resumeError: Option<Code>): Fields { Fields(None, None, None, resumeError) }

  // ---------- bind and promote ----------

  datatype Resolution = Resolution(candidate: Option<Candidate>, plan: Option<Plan>)

  /** A context request; selectors are trimmed, so a blank one is "". */
  datatype Request = Request(isContext: bool, valid: bool, isBind: bool, project: Option<string>, plan: Option<string>)

  /** How the calls a transaction makes turn out; `visible` are the homes a resume scans. */
  datatype Attempt = Attempt(
    currentRootsOk: bool, resolution: Option<Resolution>, composed: Composed, rootsOk: bool, materializes: bool,
    binds: bool, readsBack: bool, looksUp: bool, visible: set<string>, io: Io)

  predicate Given(selector: Option<string>) { selector.Some? && selector.value != "" }

  /** The checks a promotion makes on what is installed; gives the current fingerprint. */
  function CheckCurrent(ctx: Context, f: Fields, q: Request, currentRootsOk: bool): Result<string, Code> {
    if f.delegate.None? || f.binding.None? then Err(ContextBindingRequired)
    else if f.binding.value.plan.Some? then Err(PlanContextMismatch)
    else if f.binding.value.session != ctx.origin then Err(SessionRecoveryRequired)
    else if f.runtime.None? then Err(AuthorityDenied)
    else if f.runtime.value.evidence.listing.project != f.binding.value.project then Err(StaleContext)
    else if !currentRootsOk then Err(AuthorityDenied)
    else if q.project.Some? && q.project.value == "" then Err(ContextLocatorRequired)
    else if q.project.Some? && q.project.value != f.binding.value.project then Err(ProjectContextMismatch)
    else Ok(ctx.fingerprint(f.runtime.value.evidence.listing))
  }

  /** `resolve_trusted_unbound_resolution`: it reads the registry, and for a Plan selector, and
      only then, the local governance inputs. */
  function Resolve(ctx: Context, wantsPlan: bool, a: Attempt): Result<Resolution, Code> {
    if !ctx.registry || a.resolution.None? then Err(AuthorityResolutionFailed)
    else if !wantsPlan then Ok(a.resolution.value.(plan := None))
    else if !ctx.governance || a.resolution.value.plan.None? then Err(PlanAuthoritySourceUnavailable)
    else Ok(a.resolution.value)
  }

  /** Everything before the host is composed: the resolved Project and Plan, or an error. */
  function Prepare(ctx: Context, f: Fields, promotion: bool, q: Request, a: Attempt): Result<Resolution, Code> {
    if !ctx.exact then Err(SessionRecoveryRequired)
    else
      var current := if promotion then CheckCurrent(ctx, f, q, a.currentRootsOk) else Ok("");
      if current.Err? then Err(current.error)
      else if !promotion && !Given(q.project) then Err(ContextLocatorRequired)
      else if !ctx.registry then Err(ProjectRegistryRequired)
      else
        var resolution :- Resolve(ctx, Given(q.plan), a);
        if resolution.candidate.None? then Err(ProjectNotFound)
        else if promotion && ctx.fingerprint(resolution.candidate.value.listing) != current.value then
          Err(StaleContext)
        else Ok(resolution)
  }

  /** Why a freshly composed host may not be activated. */
  function HostProblem(ctx: Context, resolution: Resolution, host: Host, a: Attempt): Option<Code>
    requires resolution.candidate.Some?
  {
    if ctx.fingerprint(host.evidence.listing) != ctx.fingerprint(resolution.candidate.value.listing)
       || host.evidence.registry != resolution.candidate.value.registry then Some(StaleContext)
    else if resolution.plan.Some? && host.binding.plan != resolution.plan then Some(StaleContext)
    else if resolution.plan.None? && host.binding.plan.Some? then Some(PlanContextMismatch)
    else if !a.rootsOk then Some(AuthorityDenied)
    else if !a.materializes || !a.binds then Some(AuthorityResolutionFailed)
    else if !a.readsBack then Some(ReadbackMismatch)
    else None
  }

  function RecordOf(ctx: Context, host: Host): Record {
    Record(host.binding.project, ctx.fingerprint(host.evidence.listing), host.binding.plan, host.binding.roots)
  }

  /** Durable evidence for a host about to be installed, in the file of the host's own home. */
  function Save(ctx: Context, w: World, f: Fields, promotion: bool, host: Host, a: Attempt): (World, Option<Code>) {
    var home := host.evidence.home;
    var was := Filed(w.evidence, home);
    var expected := if promotion then was else None;
    if promotion && !a.looksUp then (w, Some(PersistenceFailed))
    else if expected.Some? && f.binding.Some? && expected.value.roots != f.binding.value.roots then
      (w, Some(AuthorityDenied))
    else
      var (record, problem) := Persist(was, RecordOf(ctx, host), expected, a.io);
      (Written(w, home, record, problem), problem)
  }

  /** The protected part of the transaction, up to its commit. */
  function Activate(ctx: Context, f: Fields, w: World, promotion: bool, resolution: Resolution, a: Attempt)
    : (World, Activation)
    requires resolution.candidate.Some?
  {
    if resolution.plan.Some? && !ctx.governance then (w, Failed(None, PlanAuthoritySourceUnavailable))
    else
      var (w1, composed) := Compose(ctx, w, resolution.candidate.value.listing.project, a.composed,
                                    ctx.bindGlobal && !promotion);
      match composed
      case None => (w1, Failed(None, AuthorityResolutionFailed))
      case Some(host) =>
        match HostProblem(ctx, resolution, host, a)
        case Some(code) => (w1, Failed(Some(host), code))
        case None =>
          var (w2, problem) := Save(ctx, w1, f, promotion, host, a);
          (w2, if problem.Some? then Failed(Some(host), problem.value) else Ready(host))
  }

  function Bind(ctx: Context, f: Fields, w: World, promotion: bool, q: Request, a: Attempt)
    : (Fields, World, Option<Code>)
  {
    match Prepare(ctx, f, promotion, q, a)
    case Err(code) => (f, w, Some(code))
    case Ok(resolution) =>
      var (w1, activation) := Activate(ctx, f, w, promotion, resolution, a);
      match activation
      case Failed(open, code) => (f, Abort(ctx, w1, w.dispatcher, open), Some(code))
      case Ready(host) =>
        var w2 := if promotion && ctx.bindGlobal then w1.(dispatcher := Some(OfHost(host.id))) else w1;
        var replaced := if f.runtime == Some(host) then None else f.runtime;
        (Install(host, f.resumeError), CloseHost(w2, replaced), None)
  }

  // ---------- routing ----------

  datatype Route = Promote | Delegated | Rejected(code: Code) | BindFresh | Unchanged

  /** Only a bind of a Plan in the bound Project promotes. */
  predicate IsPromotion(f: Fields, q: Request) {
    && f.binding.Some? && f.binding.value.plan.None?
    && q.isContext && q.valid && q.isBind && Given(q.plan)
    && (q.project.Some? ==> q.project.value == f.binding.value.project)
  }

  function RouteOf(f: Fields, q: Request): Route {
    if f.delegate.Some? then if IsPromotion(f, q) then Promote else Delegated
    else if q.isContext && f.resumeError.Some? then Rejected(f.resumeError.value)
    else if q.isContext && !q.valid then Rejected(InputInvalid)
    else if q.isContext && q.isBind then BindFresh
    else Unchanged
  }

  function Invoke(ctx: Context, f: Fields, w: World, q: Request, a: Attempt): (Fields, World, Option<Code>) {
    match RouteOf(f, q)
    case Promote => Bind(ctx, f, w, true, q, a)
    case BindFresh => Bind(ctx, f, w, false, q, a)
    case Rejected(code) => (f, w, Some(code))
    case Delegated => (f, w, None)
    case Unchanged => (f, w, None)
  }

  function Close(f: Fields, w: World): (Fields, World) {
    (Unbound(f.resumeError), CloseHost(w, f.runtime))
  }

  // ---------- resume ----------

  /** Why a recomposed host does not match the evidence it was recomposed from. */
  function RecomposeProblem(ctx: Context, durable: Record, host: Host, a: Attempt): Option<Code> {
    if ctx.fingerprint(host.evidence.listing) != durable.fingerprint then Some(ProjectContextMismatch)
    else if durable.plan.None? && host.binding.plan.Some? then Some(PlanContextMismatch)
    else if durable.plan.Some? && host.binding.plan.None? then Some(StaleContext)
    else if !a.rootsOk then Some(AuthorityDenied)
    else if IdentityProblem(durable, RecordOf(ctx, host)).Some? then IdentityProblem(durable, RecordOf(ctx, host))
    else if durable.roots != host.binding.roots then Some(AuthorityDenied)
    else if !a.materializes then Some(AuthorityResolutionFailed)
    else None
  }

  /** `recompose_trusted_context_from_evidence`, which closes the host itself when it raises. */
  function Recompose(ctx: Context, w: World, durable: Record, a: Attempt): (World, Activation) {
    match Resolve(ctx, durable.plan.Some?, a)
    case Err(code) => (w, Failed(None, code))
    case Ok(resolution) =>
      if resolution.candidate.None? || ctx.fingerprint(resolution.candidate.value.listing) != durable.fingerprint then
        (w, Failed(None, ProjectContextMismatch))
      else
        var (w1, composed) :=
          Compose(ctx, w, resolution.candidate.value.listing.project, a.composed, ctx.bindGlobal);
        match composed
        case None => (w1, Failed(None, AuthorityResolutionFailed))
        case Some(host) =>
          match RecomposeProblem(ctx, durable, host, a)
          case Some(code) => (CloseHost(w1, Some(host)), Failed(None, code))
          case None => (w1, Ready(host))
  }

  /** The protected part of resume: recompose, read back, refresh the evidence where it was found. */
  function Reactivate(ctx: Context, w: World, home: string, a: Attempt): (World, Activation)
    requires home in w.evidence
  {
    var durable := w.evidence[home];
    var (w1, activation) := Recompose(ctx, w, durable, a);
    match activation
    case Failed(_, _) => (w1, activation)
    case Ready(host) =>
      if !a.readsBack then (w1, Failed(Some(host), ReadbackMismatch))
      else
        var (record, problem) := Refresh(Filed(w1.evidence, home), durable, RecordOf(ctx, host), a.io);
        (Written(w1, home, record, problem),
         if problem.Some? then Failed(Some(host), problem.value) else Ready(host))
  }

  /** The homes in which `locate_durable_context_binding` finds evidence of the session. */
  function Matches(evidence: map<string, Record>, visible: set<string>): (homes: set<string>)
    ensures homes <= evidence.Keys && homes <= visible
    ensures forall home :: home in evidence && home in visible ==> home in homes
  {
    set home | home in evidence && home in visible
  }

  lemma OnlyOne(homes: set<string>)
    requires |homes| == 1
    ensures forall g, h :: g in homes && h in homes ==> g == h
  {
    var one :| one in homes;
    assert |homes - {one}| == 0;
    assert homes == {one} + (homes - {one});
  }

  function TheOne(homes: set<string>): (home: string)
    requires |homes| == 1
    ensures homes == {home}
  {
    OnlyOne(homes);
    var home :| home in homes;
    home
  }

  /** Construction: rehydrate the session's durable evidence, if one home has any. */
  function Resume(ctx: Context, w: World, a: Attempt): (Fields, World) {
    if !ctx.exact then (Unbound(None), w)
    else if !a.looksUp then (Unbound(Some(AuthorityResolutionFailed)), w)
    else
      var homes := Matches(w.evidence, a.visible);
      if |homes| > 1 then (Unbound(Some(BindingConflict)), w)
      else if homes == {} then (Unbound(None), w)
      else
        var (w1, activation) := Reactivate(ctx, w, TheOne(homes), a);
        match activation
        case Failed(open, code) => (Unbound(Some(code)), Abort(ctx, w1, w.dispatcher, open))
        case Ready(host) => (Install(host, None), w1)
  }
}
