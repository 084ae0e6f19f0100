/** Finalizer safety over whole runs of the reconcile protocol: a pass schedules a drop only on what it saw
    itself, and only the delivery of such a pass takes a finalizer away. */
module ProtocolFinalizers {
  import opened Common
  import opened Finalizers
  import opened Protocol
  import opened ProtocolSafety

  // ---------------------------------------------------------------- gateways

  /** A pass that saw the deletion timestamp and, later than the delete request, an empty locked listing. */
  ghost predicate SawDrained(st: Store, th: Thread) {
    var g := th.job.g;
    && th.job.GatewayJob? && th.job.deleting && th.seen.Listed? && th.seen.snap.mcps == map[]
    && g in st.gwDeletedAt && st.gwDeletedAt[g] <= th.seen.snap.version && SnapOk(st.hist, g, th.seen.snap)
  }

  ghost predicate GatewayOk(st: Store, ev: Evidence, g: GatewayKey) {
    && (g in st.gateways ==> g in st.specs && (st.gateways[g].deleting <==> g in st.gwDeletedAt))
    && (g in st.gwDeletedAt ==> g in st.specs && st.gwDeletedAt[g] < |st.hist|)
    && (HoldsGateway(st, g) ==> g in st.gwProtected)
    && (g in st.gwProtected ==> g in st.specs)
    && (g in ev.gateways ==> ev.gateways[g].job.g == g && SawDrained(st, ev.gateways[g]))
    && (g in st.gwProtected && !HoldsGateway(st, g) ==> g in ev.gateways)
  }

  ghost predicate GatewayThreadOk(st: Store, th: Thread) {
    var g := th.job.g;
    th.job.GatewayJob? ==>
      && g in st.specs
      && (th.job.deleting ==> g in st.gwDeletedAt)
      && (HasSnap(th.phase) ==> th.seen == Listed(th.phase.snap))
      && (th.seen.Listed? ==>
            SnapOk(st.hist, g, th.seen.snap) && (th.job.deleting ==> st.gwDeletedAt[g] <= th.seen.snap.version))
      && (Drop(GATEWAY_FINALIZER) in th.patch ==> th.phase.Finished? && SawDrained(st, th))
  }

  ghost predicate InvGateway(s: State) {
    && (forall g :: GatewayOk(s.store, s.ev, g))
    && (forall t | t in s.threads :: GatewayThreadOk(s.store, s.threads[t]))
  }

  /** Only a scheduled drop makes a transform list lose a name. */
  lemma {:induction false} LosingNeedsDrop(ops: seq<Op>, fs: seq<string>, name: string)
    requires name in fs && name !in ApplyOps(ops, fs)
    ensures Drop(name) in ops
  {
    LastEntryDecides(ops, fs, name);
  }

  /** What a pass saw stays true while the store moves on. */
  ghost predicate StoreKeeps(st: Store, st': Store) {
    && |st.hist| <= |st'.hist| && (forall v | 0 <= v < |st.hist| :: st'.hist[v] == st.hist[v])
    && (forall g | g in st.gwDeletedAt :: g in st'.gwDeletedAt && st'.gwDeletedAt[g] == st.gwDeletedAt[g])
    && (forall g | g in st.specs :: g in st'.specs)
  }

  lemma {:induction false} SawStays(st: Store, st': Store, th: Thread)
    requires StoreKeeps(st, st')
    ensures SawDrained(st, th) ==> SawDrained(st', th)
    ensures GatewayThreadOk(st, th) ==> GatewayThreadOk(st', th)
  {
  }

  /** Nothing but a delete request starts a gateway's deletion, once. */
  lemma {:induction false} EditKeeps(st: Store, ev: Evidence, e: Edit)
    requires CanEdit(st, e) && forall g :: GatewayOk(st, ev, g)
    ensures StoreKeeps(st, DoEdit(st, e))
  {
    match e {
      case DeleteGateway(g) => assert GatewayOk(st, ev, g);
      case _ =>
    }
  }

  lemma {:induction false} EditOneGateway(st: Store, ev: Evidence, e: Edit, g: GatewayKey)
    requires st.hist != [] && CanEdit(st, e) && GatewayOk(st, ev, g) && StoreKeeps(st, DoEdit(st, e))
    ensures GatewayOk(DoEdit(st, e), ev, g)
  {
    if g in ev.gateways { SawStays(st, DoEdit(st, e), ev.gateways[g]); }
  }

  lemma {:induction false} EditGatewayOk(s: State, e: Edit)
    requires |s.store.hist| > 0 && InvGateway(s) && Enabled(s, Change(e))
    ensures InvGateway(Do(s, Change(e)))
  {
    var s' := Do(s, Change(e));
    EditKeeps(s.store, s.ev, e);
    forall g ensures GatewayOk(s'.store, s'.ev, g) {
      assert GatewayOk(s.store, s.ev, g);
      EditOneGateway(s.store, s.ev, e, g);
    }
    forall t | t in s'.threads ensures GatewayThreadOk(s'.store, s'.threads[t]) {
      SawStays(s.store, s'.store, s.threads[t]);
    }
  }

  lemma {:induction false} PatchKeeps(st: Store, job: Job, patch: seq<Op>)
    ensures StoreKeeps(st, DoPatch(st, job, patch))
    ensures DoPatch(st, job, patch).gwDeletedAt == st.gwDeletedAt && DoPatch(st, job, patch).specs == st.specs
  {
  }

  /** A delivery that takes a gateway's finalizer is that of a pass for this gateway with the drop. */
  lemma {:induction false} GatewayLoser(st: Store, th: Thread, g: GatewayKey)
    requires HoldsGateway(st, g) && !HoldsGateway(DoPatch(st, th.job, th.patch), g)
    ensures th.job.GatewayJob? && th.job.g == g && Drop(GATEWAY_FINALIZER) in th.patch
  {
    if th.job.GatewayJob? && th.job.g == g {
      if GATEWAY_FINALIZER !in ApplyOps(th.patch, st.gateways[g].finalizers) {
        LosingNeedsDrop(th.patch, st.gateways[g].finalizers, GATEWAY_FINALIZER);
      }
    }
  }

  lemma {:induction false} PatchOneGateway(st: Store, ev: Evidence, th: Thread, g: GatewayKey)
    requires st.hist != [] && GatewayOk(st, ev, g) && GatewayThreadOk(st, th)
    ensures var st' := DoPatch(st, th.job, th.patch);
            GatewayOk(st', EvidenceAfter(ev, st, st', th), g)
  {
    var st' := DoPatch(st, th.job, th.patch);
    PatchKeeps(st, th.job, th.patch);
    if g in ev.gateways { SawStays(st, st', ev.gateways[g]); }
    if HoldsGateway(st, g) && !HoldsGateway(st', g) {
      GatewayLoser(st, th, g);
      SawStays(st, st', th);
    }
  }

  lemma {:induction false} PatchGatewayOk(s: State, t: Tid)
    requires |s.store.hist| > 0 && InvGateway(s) && Enabled(s, Deliver(t))
    ensures InvGateway(Do(s, Deliver(t)))
  {
    var s' := DeliverEffect(s, t);
    var th := s.threads[t];
    PatchKeeps(s.store, th.job, th.patch);
    forall g ensures GatewayOk(s'.store, s'.ev, g) {
      assert GatewayOk(s.store, s.ev, g) && GatewayThreadOk(s.store, th);
      PatchOneGateway(s.store, s.ev, th, g);
    }
    forall u | u in s'.threads ensures GatewayThreadOk(s'.store, s'.threads[u]) {
      assert GatewayThreadOk(s.store, s.threads[u]);
      SawStays(s.store, s'.store, s.threads[u]);
    }
  }

  /** A gateway pass schedules the drop only over its own empty listing. */
  lemma {:induction false} DecideDrains(st: Store, th: Thread, a: Action)
    requires Ready(true, th, a) && a.Decide? && th.job.GatewayJob?
    ensures Drop(GATEWAY_FINALIZER) in Advance(st, th, a).patch && Drop(GATEWAY_FINALIZER) !in th.patch ==>
              th.job.deleting && th.phase.snap.mcps == map[] && Advance(st, th, a).phase.Finished?
    ensures Advance(st, th, a).seen == th.seen
  {
  }

  /** No other step schedules it. */
  lemma {:induction false} OthersScheduleNoDrop(st: Store, th: Thread, a: Action)
    requires Ready(true, th, a) && !a.Decide? && Drop(GATEWAY_FINALIZER) !in th.patch
    ensures Drop(GATEWAY_FINALIZER) !in Advance(st, th, a).patch
  {
  }

  /** A thread's own step keeps its evidence good. */
  lemma {:induction false} AdvanceGateway(st: Store, ev: Evidence, th: Thread, a: Action)
    requires st.hist != [] && Ready(true, th, a)
    requires GatewayThreadOk(st, th) && GatewayOk(st, ev, th.job.g)
    ensures GatewayThreadOk(st, Advance(st, th, a))
  {
    if th.job.GatewayJob? {
      if a.Decide? {
        DecideDrains(st, th, a);
      } else {
        OthersScheduleNoDrop(st, th, a);
      }
    }
  }

  lemma {:induction false} GatewayFrame(s: State, s': State, t: Tid, th': Thread)
    requires InvGateway(s) && t in s.threads
    requires s'.store == s.store && s'.ev == s.ev && s'.threads == s.threads[t := th']
    requires GatewayThreadOk(s.store, th')
    ensures InvGateway(s')
  {
    forall g ensures GatewayOk(s'.store, s'.ev, g) {
      assert GatewayOk(s.store, s.ev, g);
    }
    forall u | u in s'.threads ensures GatewayThreadOk(s'.store, s'.threads[u]) {
      if u != t { assert GatewayThreadOk(s.store, s.threads[u]); }
    }
  }

  lemma {:induction false} HandlerGatewayOk(s: State, a: Action)
    requires InvLock(s) && InvGateway(s) && Enabled(s, a) && IsHandler(a)
    ensures InvGateway(Do(s, a))
  {
    var s', th' := HandlerEffect(s, a);
    var th := s.threads[a.t];
    assert GatewayThreadOk(s.store, th) && GatewayOk(s.store, s.ev, th.job.g);
    AdvanceGateway(s.store, s.ev, th, a);
    GatewayFrame(s, s', a.t, th');
  }

  lemma {:induction false} SpawnGatewayOk(s: State, a: Action)
    requires InvGateway(s) && Enabled(s, a) && (a.SpawnGateway? || a.SpawnMcp?)
    ensures InvGateway(Do(s, a))
  {
    var s' := Do(s, a);
    if a.SpawnGateway? { assert GatewayOk(s.store, s.ev, a.g); }
    forall g ensures GatewayOk(s'.store, s'.ev, g) {
      assert GatewayOk(s.store, s.ev, g);
    }
    forall u | u in s'.threads ensures GatewayThreadOk(s'.store, s'.threads[u]) {
      if u in s.threads { assert GatewayThreadOk(s.store, s.threads[u]); }
    }
  }

  lemma {:induction false} GatewayStep(s: State, a: Action)
    requires InvLock(s) && InvGateway(s) && Enabled(s, a)
    ensures InvGateway(Do(s, a))
  {
    match a {
      case Change(e) => EditGatewayOk(s, e);
      case Deliver(t) => PatchGatewayOk(s, t);
      case SpawnGateway(t, g) => SpawnGatewayOk(s, a);
      case SpawnMcp(t, m) => SpawnGatewayOk(s, a);
      case _ => HandlerGatewayOk(s, a);
    }
  }

  // ---------------------------------------------------------------- MCP servers

  /** A pass that saw the deletion timestamp and got a true answer to its own unregister call. */
  ghost predicate SawUnregistered(st: Store, th: Thread) {
    th.job.McpJob? && th.job.deleting && th.seen == Answered(true) && th.job.m in st.mcpDeleted
  }

  ghost predicate McpOk(st: Store, ev: Evidence, m: McpId) {
    && (m in Current(st) ==> m in st.usedMcps && (Current(st)[m].deleting ==> m in st.mcpDeleted))
    && (m in st.mcpProtected ==> m in st.usedMcps)
    && (HoldsMcp(st, m) ==> m in st.mcpProtected)
    && (m in ev.mcps ==> ev.mcps[m].job.McpJob? && ev.mcps[m].job.m == m && SawUnregistered(st, ev.mcps[m]))
    && (m in st.mcpProtected && !HoldsMcp(st, m) ==> m in ev.mcps)
  }

  ghost predicate McpThreadOk(st: Store, th: Thread) {
    th.job.McpJob? ==>
      && th.job.m in st.usedMcps
      && (th.job.deleting ==> th.job.m in st.mcpDeleted)
      && (th.phase.Asked? ==> th.seen == Answered(th.phase.ok))
      && (Drop(MCP_FINALIZER) in th.patch ==> (th.phase.Touching? || th.phase.Finished?) && SawUnregistered(st, th))
  }

  ghost predicate InvMcp(s: State) {
    && (forall m :: McpOk(s.store, s.ev, m))
    && (forall t | t in s.threads :: McpThreadOk(s.store, s.threads[t]))
  }

  lemma {:induction false} EditMcpOk(s: State, e: Edit)
    requires |s.store.hist| > 0 && InvMcp(s) && Enabled(s, Change(e))
    ensures InvMcp(Do(s, Change(e)))
  {
    var s' := Do(s, Change(e));
    forall m ensures McpOk(s'.store, s'.ev, m) {
      assert McpOk(s.store, s.ev, m);
    }
    forall t | t in s'.threads ensures McpThreadOk(s'.store, s'.threads[t]) {
      assert McpThreadOk(s.store, s.threads[t]);
    }
  }

  /** A delivery that takes an MCP's finalizer is that of a pass for this MCP with the drop. */
  lemma {:induction false} McpLoser(st: Store, th: Thread, m: McpId)
    requires st.hist != [] && HoldsMcp(st, m) && !HoldsMcp(DoPatch(st, th.job, th.patch), m)
    ensures th.job.McpJob? && th.job.m == m && Drop(MCP_FINALIZER) in th.patch
  {
    if th.job.McpJob? && th.job.m == m {
      if MCP_FINALIZER !in ApplyOps(th.patch, Current(st)[m].finalizers) {
        LosingNeedsDrop(th.patch, Current(st)[m].finalizers, MCP_FINALIZER);
      }
    }
  }

  /** One MCP over a delivery. */
  lemma {:induction false} PatchOneMcp(st: Store, ev: Evidence, th: Thread, m: McpId)
    requires st.hist != [] && McpOk(st, ev, m) && McpThreadOk(st, th)
    ensures var st' := DoPatch(st, th.job, th.patch);
            McpOk(st', EvidenceAfter(ev, st, st', th), m)
  {
    var st' := DoPatch(st, th.job, th.patch);
    if HoldsMcp(st, m) && !HoldsMcp(st', m) {
      McpLoser(st, th, m);
    }
  }

  lemma {:induction false} PatchMcpOk(s: State, t: Tid)
    requires |s.store.hist| > 0 && InvMcp(s) && Enabled(s, Deliver(t))
    ensures InvMcp(Do(s, Deliver(t)))
  {
    var s' := DeliverEffect(s, t);
    var th := s.threads[t];
    assert McpThreadOk(s.store, th);
    forall m ensures McpOk(s'.store, s'.ev, m) {
      assert McpOk(s.store, s.ev, m);
      PatchOneMcp(s.store, s.ev, th, m);
    }
    forall u | u in s'.threads ensures McpThreadOk(s'.store, s'.threads[u]) {
      assert McpThreadOk(s.store, s.threads[u]);
    }
  }

  lemma {:induction false} AdvanceMcp(st: Store, th: Thread, a: Action)
    requires Ready(true, th, a) && McpThreadOk(st, th)
    ensures McpThreadOk(st, Advance(st, th, a))
  {
  }

  lemma {:induction false} McpFrame(s: State, s': State, t: Tid, th': Thread)
    requires InvMcp(s) && t in s.threads
    requires s'.store == s.store && s'.ev == s.ev && s'.threads == s.threads[t := th']
    requires McpThreadOk(s.store, th')
    ensures InvMcp(s')
  {
    forall m ensures McpOk(s'.store, s'.ev, m) {
      assert McpOk(s.store, s.ev, m);
    }
    forall u | u in s'.threads ensures McpThreadOk(s'.store, s'.threads[u]) {
      if u != t { assert McpThreadOk(s.store, s.threads[u]); }
    }
  }

  lemma {:induction false} HandlerMcpOk(s: State, a: Action)
    requires InvMcp(s) && Enabled(s, a) && IsHandler(a)
    ensures InvMcp(Do(s, a))
  {
    var s', th' := HandlerEffect(s, a);
    assert McpThreadOk(s.store, s.threads[a.t]);
    AdvanceMcp(s.store, s.threads[a.t], a);
    McpFrame(s, s', a.t, th');
  }

  lemma {:induction false} SpawnMcpOk(s: State, a: Action)
    requires InvMcp(s) && Enabled(s, a) && (a.SpawnGateway? || a.SpawnMcp?)
    ensures InvMcp(Do(s, a))
  {
    var s' := Do(s, a);
    if a.SpawnMcp? { assert McpOk(s.store, s.ev, a.m); }
    forall m ensures McpOk(s'.store, s'.ev, m) {
      assert McpOk(s.store, s.ev, m);
    }
    forall u | u in s'.threads ensures McpThreadOk(s'.store, s'.threads[u]) {
      if u in s.threads { assert McpThreadOk(s.store, s.threads[u]); }
    }
  }

  lemma {:induction false} McpStep(s: State, a: Action)
    requires InvLock(s) && InvMcp(s) && Enabled(s, a)
    ensures InvMcp(Do(s, a))
  {
    match a {
      case Change(e) => EditMcpOk(s, e);
      case Deliver(t) => PatchMcpOk(s, t);
      case SpawnGateway(t, g) => SpawnMcpOk(s, a);
      case SpawnMcp(t, m) => SpawnMcpOk(s, a);
      case _ => HandlerMcpOk(s, a);
    }
  }
}
