/** The reconcile protocol: Kopf handlers as threads that interleave at every `await`,
    the per-gateway lock, list-then-apply sections, and the patch delivered after a handler
    returns. Kubernetes is an abstract store; its users act between any two steps. */
module Protocol {
  import opened Common
  import opened Finalizers

  type Tid = nat

  /** The identity of a child object: one of the four every gateway has, or a route, a listener policy or an
      attached object of its own choosing. */
  datatype Slot = Pvc | ConfigMap | Service | Deployment | Other(id: string)

  /** A rendered manifest: where it goes, and whether its text depends on the listed MCPs. */
  datatype Manifest = Manifest(slot: Slot, shows: bool)

  /** A gateway spec: its revision, and what it renders after the four fixed objects: routes, listener policies
      and attachments. An attachment may name one of the four. */
  datatype GwSpec = GwSpec(rev: nat, extras: seq<Slot>)

  /** Only the artifacts ConfigMap and the Deployment are rendered from the MCPs. */
  const FIXED := [Manifest(Pvc, false), Manifest(ConfigMap, true), Manifest(Service, false), Manifest(Deployment, true)]

  function Count(spec: GwSpec): nat {
    4 + |spec.extras|
  }

  /** The manifests of a pass, in the order they are applied. */
  function ManifestAt(spec: GwSpec, i: nat): Manifest
    requires i < Count(spec)
  {
    if i < 4 then FIXED[i] else Manifest(spec.extras[i - 4], false)
  }

  datatype GwCr = GwCr(spec: GwSpec, deleting: bool, finalizers: seq<string>)

  datatype McpId = McpId(namespace: string, name: string)
  datatype McpCr = McpCr(gateway: string, rev: nat, deleting: bool, finalizers: seq<string>)
  type Catalog = map<McpId, McpCr>

  predicate Attached(cat: Catalog, m: McpId, g: GatewayKey) {
    m in cat && m.namespace == g.namespace && cat[m].gateway == g.name
  }

  /** `list_for_gateway`: what one listing sees, deleting objects included. */
  function ListFor(cat: Catalog, g: GatewayKey): map<McpId, nat> {
    map m | m in cat && Attached(cat, m, g) :: cat[m].rev
  }

  /** What an apply was rendered from: the gateway spec and the listing of one catalog version. */
  datatype Snapshot = Snapshot(spec: GwSpec, version: nat, mcps: map<McpId, nat>)
  datatype Applied = Applied(item: Manifest, snap: Snapshot, byMcp: bool)

  /** The event body a handler was called with. */
  datatype Job =
    | GatewayJob(g: GatewayKey, spec: GwSpec, deleting: bool, finalizers: seq<string>)
    | McpJob(m: McpId, g: GatewayKey, deleting: bool, finalizers: seq<string>)

  /** Where a handler is between two awaits. */
  datatype Phase =
    | Waiting
    | Entered
    | Looked(gw: Option<GwSpec>)
    | Asked(gw: Option<GwSpec>, ok: bool)
    | OwnApplied(spec: GwSpec)
    | Listing(snap: Snapshot)
    | Applying(snap: Snapshot, next: nat)
    | Touching
    | Finished

  /** What a pass itself observed: its locked listing, or the answer to its unregister call. */
  datatype Seen = Nothing | Listed(snap: Snapshot) | Answered(ok: bool)

  datatype Thread = Thread(job: Job, phase: Phase, patch: seq<Op>, seen: Seen)

  /** The API server's custom resources, with what history is needed to speak about runs. */
  datatype Store = Store(
    gateways: map<GatewayKey, GwCr>,
    hist: seq<Catalog>,                   // every catalog version; the last is current
    specs: map<GatewayKey, seq<GwSpec>>,  // every spec ever written, per gateway
    usedMcps: set<McpId>,
    gwProtected: set<GatewayKey>,         // ever carried our finalizer
    mcpProtected: set<McpId>,
    gwDeletedAt: map<GatewayKey, nat>,    // catalog version when deletion was requested
    mcpDeleted: set<McpId>)

  /** Child objects in the cluster and the applies that put them there. */
  datatype Record = Record(
    objects: map<(GatewayKey, Slot), Applied>,
    log: map<GatewayKey, seq<Applied>>,   // in the order they happened
    settled: map<GatewayKey, Snapshot>)   // last section that ran its apply loop to the end

  /** The passes whose delivered patches took the operator's finalizers away. */
  datatype Evidence = Evidence(gateways: map<GatewayKey, Thread>, mcps: map<McpId, Thread>)

  datatype State = State(
    callback: bool,                       // is unregister_upstream configured
    store: Store, lock: map<GatewayKey, Tid>, threads: map<Tid, Thread>, rec: Record, ev: Evidence)

  datatype Action =
    // users of the cluster
    | Change(edit: Edit)
    // Kopf calls a handler; its patch is delivered when it is done
    | SpawnGateway(t: Tid, g: GatewayKey) | SpawnMcp(t: Tid, m: McpId) | Deliver(t: Tid)
    // handler steps
    | Acquire(t: Tid) | LookUp(t: Tid) | Ask(t: Tid, ok: bool) | Decide(t: Tid) | List(t: Tid)
    | Begin(t: Tid) | ApplyOne(t: Tid) | Complete(t: Tid) | Leave(t: Tid) | Crash(t: Tid, keep: bool)

  datatype Edit =
    | CreateGateway(g: GatewayKey, extras: seq<Slot>) | EditGateway(g: GatewayKey, extras: seq<Slot>)
    | DeleteGateway(g: GatewayKey) | ForeignGateway(g: GatewayKey, fs: seq<string>)
    | CreateMcp(m: McpId, gateway: string, rev: nat) | EditMcp(m: McpId, gateway: string, rev: nat)
    | DeleteMcp(m: McpId) | ForeignMcp(m: McpId, fs: seq<string>)

  // ---------------------------------------------------------------- the store

  function Current(st: Store): Catalog {
    if st.hist == [] then map[] else st.hist[|st.hist| - 1]
  }

  /** A deleting object whose finalizer list becomes empty is garbage collected. */
  function PutMcp(st: Store, m: McpId, cr: McpCr): Store {
    st.(hist := st.hist + [if cr.deleting && cr.finalizers == [] then Current(st) - {m} else Current(st)[m := cr]],
        mcpProtected := if MCP_FINALIZER in cr.finalizers then st.mcpProtected + {m} else st.mcpProtected)
  }

  function PutGateway(st: Store, g: GatewayKey, cr: GwCr): Store {
    st.(gateways := if cr.deleting && cr.finalizers == [] then st.gateways - {g} else st.gateways[g := cr],
        gwProtected := if GATEWAY_FINALIZER in cr.finalizers then st.gwProtected + {g} else st.gwProtected)
  }

  function SpecsOf(st: Store, g: GatewayKey): seq<GwSpec> {
    if g in st.specs then st.specs[g] else []
  }

  /** The newest revision ever written. */
  function Rev(st: Store, g: GatewayKey): nat {
    |SpecsOf(st, g)|
  }

  predicate CanEdit(st: Store, e: Edit) {
    match e
    case CreateGateway(g, _) => g !in st.gateways && g !in st.specs
    case EditGateway(g, _) => g in st.gateways
    case DeleteGateway(g) => g in st.gateways && !st.gateways[g].deleting && st.hist != []
    case ForeignGateway(g, fs) =>
      g in st.gateways && (GATEWAY_FINALIZER in fs <==> GATEWAY_FINALIZER in st.gateways[g].finalizers)
    case CreateMcp(m, _, _) => m !in st.usedMcps
    case EditMcp(m, _, _) => m in Current(st)
    case DeleteMcp(m) => m in Current(st) && !Current(st)[m].deleting
    case ForeignMcp(m, fs) =>
      m in Current(st) && (MCP_FINALIZER in fs <==> MCP_FINALIZER in Current(st)[m].finalizers)
  }

  function DoEdit(st: Store, e: Edit): Store
    requires CanEdit(st, e)
  {
    match e
    case CreateGateway(g, extras) =>
      PutGateway(st.(specs := st.specs[g := [GwSpec(1, extras)]]), g, GwCr(GwSpec(1, extras), false, []))
    case EditGateway(g, extras) =>
      var spec := GwSpec(Rev(st, g) + 1, extras);
      PutGateway(st.(specs := st.specs[g := SpecsOf(st, g) + [spec]]), g, st.gateways[g].(spec := spec))
    case DeleteGateway(g) =>
      PutGateway(st.(gwDeletedAt := st.gwDeletedAt[g := |st.hist| - 1]), g, st.gateways[g].(deleting := true))
    case ForeignGateway(g, fs) => PutGateway(st, g, st.gateways[g].(finalizers := fs))
    case CreateMcp(m, g, rev) =>
      PutMcp(st.(usedMcps := st.usedMcps + {m}), m, McpCr(g, rev, false, []))
    case EditMcp(m, g, rev) => PutMcp(st, m, Current(st)[m].(gateway := g, rev := rev))
    case DeleteMcp(m) =>
      PutMcp(st.(mcpDeleted := st.mcpDeleted + {m}), m, Current(st)[m].(deleting := true))
    case ForeignMcp(m, fs) => PutMcp(st, m, Current(st)[m].(finalizers := fs))
  }

  /** A handler's patch reaches the API server: its transforms run on the present finalizers. */
  function DoPatch(st: Store, job: Job, patch: seq<Op>): Store {
    if patch == [] then st
    else match job
      case GatewayJob(g, _, _, _) =>
        if g !in st.gateways then st
        else PutGateway(st, g, st.gateways[g].(finalizers := ApplyOps(patch, st.gateways[g].finalizers)))
      case McpJob(m, _, _, _) =>
        if m !in Current(st) then st
        else PutMcp(st, m, Current(st)[m].(finalizers := ApplyOps(patch, Current(st)[m].finalizers)))
  }

  // ---------------------------------------------------------------- handler steps

  predicate InSection(p: Phase) {
    !p.Waiting? && !p.Finished?
  }

  function LogOf(r: Record, g: GatewayKey): seq<Applied> {
    if g in r.log then r.log[g] else []
  }

  /** The finalizer decision of a job, given the number of listed MCPs and the unregister answer. */
  function DecisionOf(job: Job, children: nat, ok: bool): Decision {
    match job
    case GatewayJob(_, _, deleting, fs) => PlanGateway(fs, deleting, if deleting then children else 0)
    case McpJob(_, _, deleting, fs) => PlanMcp(fs, deleting, ok)
  }

  /** The thread after `reconcile_gateway` has its locked listing, up to the next await. */
  function DecideGateway(th: Thread): Thread
    requires th.job.GatewayJob? && th.phase.Listing?
  {
    var d := DecisionOf(th.job, |th.phase.snap.mcps|, true);
    if d.blockDelete then th.(phase := Finished)
    else if th.job.deleting && d.remove != [] then
      th.(phase := Finished, patch := th.patch + Drops(d.remove))
    else th.(phase := Applying(th.phase.snap, 0))
  }

  /** The thread after `reconcile_mcp` has the gateway and the unregister answer. */
  function DecideMcp(th: Thread): Thread
    requires th.job.McpJob? && (th.phase.Looked? || th.phase.Asked?)
  {
    var d := DecisionOf(th.job, 0, th.phase.Asked? && th.phase.ok);
    if d.blockDelete then th.(phase := Finished)
    else if th.job.deleting && d.remove != [] then
      th.(phase := Touching, patch := th.patch + Drops(d.remove))
    else if th.phase.gw.None? then
      th.(phase := Touching, patch := th.patch + Ensures(if d.add != [] then d.add else [MCP_FINALIZER]))
    else th.(phase := OwnApplied(th.phase.gw.value))
  }

  /** Which phases each handler step runs from. */
  predicate Ready(callback: bool, th: Thread, a: Action) {
    match a
    case Acquire(_) => th.phase.Waiting?
    case LookUp(_) => th.job.McpJob? && th.phase.Entered?
    case Ask(_, ok) => th.job.McpJob? && th.phase.Looked? && th.job.deleting && (callback || ok)
    case Decide(_) =>
      if th.job.GatewayJob? then th.phase.Listing?
      else th.phase.Asked? || (th.phase.Looked? && !th.job.deleting)
    case List(_) => if th.job.GatewayJob? then th.phase.Entered? else th.phase.OwnApplied?
    case Begin(_) => th.job.McpJob? && th.phase.Listing?
    case ApplyOne(_) => th.phase.Applying? && th.phase.next < Count(th.phase.snap.spec)
    case Complete(_) => th.phase.Applying? && th.phase.next == Count(th.phase.snap.spec)
    case Leave(_) => th.phase.Touching?
    case Crash(_, _) => !th.phase.Finished?
    case _ => false
  }

  /** The thread after one step. */
  function Advance(st: Store, th: Thread, a: Action): Thread
    requires Ready(true, th, a)
  {
    match a
    case Acquire(_) => th.(phase := Entered)
    case LookUp(_) =>
      th.(phase := Looked(if th.job.g in st.gateways then Some(st.gateways[th.job.g].spec) else None))
    case Ask(_, ok) => th.(phase := Asked(th.phase.gw, ok), seen := Answered(ok))
    case Decide(_) => if th.job.GatewayJob? then DecideGateway(th) else DecideMcp(th)
    case List(_) =>
      var spec := if th.job.GatewayJob? then th.job.spec else th.phase.spec;
      var snap := Snapshot(spec, if st.hist == [] then 0 else |st.hist| - 1, ListFor(Current(st), th.job.g));
      th.(phase := Listing(snap), seen := if th.job.GatewayJob? then Listed(snap) else th.seen)
    case Begin(_) => th.(phase := Applying(th.phase.snap, 0))
    case ApplyOne(_) => th.(phase := Applying(th.phase.snap, th.phase.next + 1))
    case Complete(_) =>
      th.(phase := if th.job.GatewayJob? then Finished else Touching,
          patch := th.patch + Ensures(DecisionOf(th.job, 0, true).add))
    case Leave(_) => th.(phase := Finished)
    case Crash(_, keep) => th.(phase := Finished, patch := if keep then th.patch else [])
  }

  /** `async with`: the lock is taken on entry and given back on every way out. */
  function LockAfter(lock: map<GatewayKey, Tid>, t: Tid, before: Thread, after: Thread): map<GatewayKey, Tid> {
    if !InSection(before.phase) && InSection(after.phase) then lock[before.job.g := t]
    else if InSection(before.phase) && !InSection(after.phase) then lock - {before.job.g}
    else lock
  }

  function RecordAfter(r: Record, th: Thread, a: Action): Record
    requires Ready(true, th, a)
  {
    match a
    case ApplyOne(_) =>
      var g, snap := th.job.g, th.phase.snap;
      var e := Applied(ManifestAt(snap.spec, th.phase.next), snap, th.job.McpJob?);
      Record(r.objects[(g, e.item.slot) := e], r.log[g := LogOf(r, g) + [e]], r.settled - {g})
    case Complete(_) => r.(settled := r.settled[th.job.g := th.phase.snap])
    case _ => r
  }

  predicate HoldsGateway(st: Store, g: GatewayKey) {
    g in st.gateways && GATEWAY_FINALIZER in st.gateways[g].finalizers
  }

  predicate HoldsMcp(st: Store, m: McpId) {
    m in Current(st) && MCP_FINALIZER in Current(st)[m].finalizers
  }

  /** A delivery that took a finalizer away is remembered with its pass. */
  function EvidenceAfter(ev: Evidence, st: Store, st': Store, th: Thread): Evidence {
    match th.job
    case GatewayJob(g, _, _, _) =>
      if HoldsGateway(st, g) && !HoldsGateway(st', g) then ev.(gateways := ev.gateways[g := th]) else ev
    case McpJob(m, _, _, _) =>
      if HoldsMcp(st, m) && !HoldsMcp(st', m) then ev.(mcps := ev.mcps[m := th]) else ev
  }

  predicate Enabled(s: State, a: Action) {
    match a
    case Change(e) => CanEdit(s.store, e)
    case SpawnGateway(t, g) => t !in s.threads && g in s.store.gateways
    case SpawnMcp(t, m) => t !in s.threads && m in Current(s.store)
    case Deliver(t) => t in s.threads && s.threads[t].phase.Finished?
    case _ =>
      a.t in s.threads && Ready(s.callback, s.threads[a.t], a)
      && (a.Acquire? ==> s.threads[a.t].job.g !in s.lock)
  }

  function Do(s: State, a: Action): State
    requires Enabled(s, a)
  {
    match a
    case Change(e) => s.(store := DoEdit(s.store, e))
    case SpawnGateway(t, g) =>
      var cr := s.store.gateways[g];
      s.(threads := s.threads[t := Thread(GatewayJob(g, cr.spec, cr.deleting, cr.finalizers), Waiting, [], Nothing)])
    case SpawnMcp(t, m) =>
      var cr := Current(s.store)[m];
      var g := GatewayKey(m.namespace, cr.gateway);
      s.(threads := s.threads[t := Thread(McpJob(m, g, cr.deleting, cr.finalizers), Waiting, [], Nothing)])
    case Deliver(t) =>
      var th := s.threads[t];
      var st' := DoPatch(s.store, th.job, th.patch);
      s.(store := st', threads := s.threads - {t}, ev := EvidenceAfter(s.ev, s.store, st', th))
    case _ =>
      var th := s.threads[a.t];
      var th' := Advance(s.store, th, a);
      s.(threads := s.threads[a.t := th'],
         lock := LockAfter(s.lock, a.t, th, th'),
         rec := RecordAfter(s.rec, th, a))
  }

  // ---------------------------------------------------------------- runs

  function Init(callback: bool): State {
    State(callback, Store(map[], [map[]], map[], {}, {}, {}, map[], {}),
          map[], map[], Record(map[], map[], map[]), Evidence(map[], map[]))
  }

  ghost predicate Valid(s: State, run: seq<Action>)
    decreases |run|
  {
    run == [] || (Enabled(s, run[0]) && Valid(Do(s, run[0]), run[1..]))
  }

  function Exec(s: State, run: seq<Action>): State
    requires Valid(s, run)
    decreases |run|
  {
    if run == [] then s else Exec(Do(s, run[0]), run[1..])
  }
}
