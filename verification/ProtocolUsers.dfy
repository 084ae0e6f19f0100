/** Who can do what: which object each edit of the cluster's users touches, and how; and which step a handler takes from
    where it is. */
module ProtocolUsers {
  import opened Common
  import opened Finalizers
  import opened Protocol

  function McpOf(e: Edit): Option<McpId> {
    match e
    case CreateMcp(m, _, _) => Some(m)
    case EditMcp(m, _, _) => Some(m)
    case DeleteMcp(m) => Some(m)
    case ForeignMcp(m, _) => Some(m)
    case _ => None
  }

  function GatewayOf(e: Edit): Option<GatewayKey> {
    match e
    case CreateGateway(g, _) => Some(g)
    case EditGateway(g, _) => Some(g)
    case DeleteGateway(g) => Some(g)
    case ForeignGateway(g, _) => Some(g)
    case _ => None
  }

  /** An MCP after an edit: created alive and bare, edited in gateway and revision alone, marked as deleting for good,
      or with other controllers' finalizers. */
  predicate McpEdited(old_: Option<McpCr>, e: Edit, new_: McpCr) {
    match e
    case CreateMcp(_, gateway, rev) => old_ == None && new_ == McpCr(gateway, rev, false, [])
    case EditMcp(_, gateway, rev) =>
      && old_.Some? && new_.gateway == gateway && new_.rev == rev
      && new_.deleting == old_.value.deleting && new_.finalizers == old_.value.finalizers
    case DeleteMcp(_) =>
      && old_.Some? && !old_.value.deleting && new_.deleting
      && new_.gateway == old_.value.gateway && new_.rev == old_.value.rev && new_.finalizers == old_.value.finalizers
    case ForeignMcp(_, fs) =>
      && old_.Some? && new_.finalizers == fs && new_.deleting == old_.value.deleting
      && new_.gateway == old_.value.gateway && new_.rev == old_.value.rev
      && ("vmcp.io/unregister-before-gc" in fs <==> "vmcp.io/unregister-before-gc" in old_.value.finalizers)
    case _ => false
  }

  predicate GatewayEdited(old_: Option<GwCr>, e: Edit, revision: nat, new_: GwCr) {
    match e
    case CreateGateway(_, extras) => old_ == None && new_ == GwCr(GwSpec(1, extras), false, []) && revision == 1
    case EditGateway(_, extras) =>
      && old_.Some? && new_.spec == GwSpec(revision, extras)
      && new_.deleting == old_.value.deleting && new_.finalizers == old_.value.finalizers
    case DeleteGateway(_) =>
      && old_.Some? && !old_.value.deleting && new_.deleting
      && new_.spec == old_.value.spec && new_.finalizers == old_.value.finalizers
    case ForeignGateway(_, fs) =>
      && old_.Some? && new_.finalizers == fs && new_.deleting == old_.value.deleting && new_.spec == old_.value.spec
      && ("vmcp.io/gateway-protection" in fs <==> "vmcp.io/gateway-protection" in old_.value.finalizers)
    case _ => false
  }

  function Lookup<K, V>(m: map<K, V>, k: K): Option<V> {
    if k in m then Some(m[k]) else None
  }

  /** An edit touches one object: it becomes the edited one, or is gone when that is deleting and nobody holds it. */
  lemma {:induction false} McpEdit(st: Store, e: Edit, m: McpId) returns (cr: McpCr)
    requires CanEdit(st, e) && McpOf(e) == Some(m)
    ensures McpEdited(Lookup(Current(st), m), e, cr) || (e.CreateMcp? && McpEdited(None, e, cr))
    ensures var st' := DoEdit(st, e);
            && Current(st') == (if cr.deleting && cr.finalizers == [] then Current(st) - {m} else Current(st)[m := cr])
            && st'.hist == st.hist + [Current(st')] && st'.gateways == st.gateways && st'.specs == st.specs
            && (m in st'.mcpDeleted <==> m in st.mcpDeleted || e.DeleteMcp?)
            && (m in st'.usedMcps <==> m in st.usedMcps || e.CreateMcp?)
            && (m in st'.mcpProtected <==> m in st.mcpProtected || "vmcp.io/unregister-before-gc" in cr.finalizers)
  {
    cr := McpCr("", 0, false, []);
    match e
    case CreateMcp(_, gateway, rev) => cr := McpCr(gateway, rev, false, []);
    case EditMcp(_, gateway, rev) => cr := Current(st)[m].(gateway := gateway, rev := rev);
    case DeleteMcp(_) => cr := Current(st)[m].(deleting := true);
    case ForeignMcp(_, fs) => cr := Current(st)[m].(finalizers := fs);
    case _ => assert false;
  }

  /** A gateway's edit also writes down each new revision, and the catalog version at which deletion was asked for. */
  lemma {:induction false} GatewayEdit(st: Store, e: Edit, g: GatewayKey) returns (cr: GwCr)
    requires CanEdit(st, e) && GatewayOf(e) == Some(g)
    ensures var st' := DoEdit(st, e);
            && GatewayEdited(Lookup(st.gateways, g), e, Rev(st', g), cr)
            && st'.gateways == (if cr.deleting && cr.finalizers == [] then st.gateways - {g} else st.gateways[g := cr])
            && st'.hist == st.hist
            && SpecsOf(st', g) == SpecsOf(st, g) + (if e.CreateGateway? || e.EditGateway? then [cr.spec] else [])
            && (e.DeleteGateway? ==> g in st'.gwDeletedAt && st'.gwDeletedAt[g] == |st.hist| - 1)
            && (g in st'.gwProtected <==> g in st.gwProtected || "vmcp.io/gateway-protection" in cr.finalizers)
  {
    cr := GwCr(GwSpec(0, []), false, []);
    match e
    case CreateGateway(_, extras) => cr := GwCr(GwSpec(1, extras), false, []);
    case EditGateway(_, extras) => cr := st.gateways[g].(spec := GwSpec(Rev(st, g) + 1, extras));
    case DeleteGateway(_) => cr := st.gateways[g].(deleting := true);
    case ForeignGateway(_, fs) => cr := st.gateways[g].(finalizers := fs);
    case _ => assert false;
  }

  // ---------------------------------------------------------------- handlers

  /** The program of `reconcile_gateway`, place by place. */
  predicate GatewayNext(th: Thread, locked: bool, a: Action) {
    match th.phase
    case Waiting => a.Acquire? && !locked
    case Entered => a.List?
    case Listing(_) => a.Decide?
    case Applying(snap, next) => if next < 4 + |snap.spec.extras| then a.ApplyOne? else a.Complete?
    case Touching => a.Leave?
    case Finished => a.Deliver?
    case _ => false
  }

  /** The program of `reconcile_mcp`: only a deleting MCP is unregistered, and it is before anything is decided;
      without a callback the answer is yes. */
  predicate McpNext(th: Thread, locked: bool, callback: bool, a: Action) {
    match th.phase
    case Waiting => a.Acquire? && !locked
    case Entered => a.LookUp?
    case Looked(_) => if th.job.deleting then a.Ask? && (callback || a.ok) else a.Decide?
    case Asked(_, _) => a.Decide?
    case OwnApplied(_) => a.List?
    case Listing(_) => a.Begin?
    case Applying(snap, next) => if next < 4 + |snap.spec.extras| then a.ApplyOne? else a.Complete?
    case Touching => a.Leave?
    case Finished => a.Deliver?
  }

  predicate OfThread(a: Action, t: Tid) {
    !a.Change? && !a.SpawnGateway? && !a.SpawnMcp? && a.t == t
  }

  /** A handler takes the steps of its program in order, or crashes before it is finished, and no others. */
  lemma {:induction false} ProgramOrder(s: State, t: Tid, a: Action)
    requires t in s.threads && OfThread(a, t)
    requires var th := s.threads[t]; th.phase.Applying? ==> th.phase.next <= Count(th.phase.snap.spec)
    ensures var th := s.threads[t];
            var locked := th.job.g in s.lock;
            Enabled(s, a)
            <==> if a.Crash? then !th.phase.Finished?
                 else if th.job.GatewayJob? then GatewayNext(th, locked, a)
                 else McpNext(th, locked, s.callback, a)
  {
  }
}
