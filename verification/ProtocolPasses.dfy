/** What one pass does: every way a pass can go when it runs alone, stated on the store and the log, and what a
    live pass leaves behind whatever runs beside it. */
module ProtocolPasses {
  import opened Common
  import opened Finalizers
  import opened Protocol
  import opened ProtocolSafety
  import opened ProtocolFinalizers
  import opened ProtocolRuns
  import opened ProtocolSteps

  /** One handler is under way, as thread 0. */
  predicate Alone(s: State) {
    s.threads.Keys == {0}
  }

  // ---------------------------------------------------------------- finalizer lists

  /** The list with the name at its end, unless it is there. */
  function With(fs: seq<string>, name: string): seq<string> {
    if name in fs then fs else fs + [name]
  }

  lemma {:induction false} OneOp(name: string, fs: seq<string>)
    ensures ApplyOps([Ensure(name)], fs) == With(fs, name)
    ensures ApplyOps([Drop(name)], fs) == Without(fs, name)
  {
    assert [Ensure(name)][1..] == [] && [Drop(name)][1..] == [];
  }

  /** What the cluster holds of an MCP whose finalizers become `fs`. */
  function CatalogWith(cat: Catalog, m: McpId, fs: seq<string>): Catalog
    requires m in cat
  {
    if fs == cat[m].finalizers then cat
    else if cat[m].deleting && fs == [] then cat - {m}
    else cat[m := cat[m].(finalizers := fs)]
  }

  function GatewaysWith(gws: map<GatewayKey, GwCr>, g: GatewayKey, fs: seq<string>): map<GatewayKey, GwCr>
    requires g in gws
  {
    if fs == gws[g].finalizers then gws
    else if gws[g].deleting && fs == [] then gws - {g}
    else gws[g := gws[g].(finalizers := fs)]
  }

  // ---------------------------------------------------------------- an MCP pass, step by step

  /** The pass of an MCP that was called, took the free lock and read its gateway. */
  lemma {:induction false} McpReads(from: State, n: nat, s: State, m: McpId) returns (s': State)
    requires Leads(from, s, n) && Quiescent(s) && m in Current(s.store)
    ensures Leads(from, s', n + 1) && s'.store == s.store && s'.rec == s.rec && s'.callback == s.callback
    ensures var cr := Current(s.store)[m];
            var g := GatewayKey(m.namespace, cr.gateway);
            var gw := if g in s.store.gateways then Some(s.store.gateways[g].spec) else None;
            && s'.lock == map[g := 0]
            && Alone(s') && s'.threads[0] == Thread(McpJob(m, g, cr.deleting, cr.finalizers), Looked(gw), [], Nothing)
  {
    s' := GoMcp(from, n, s, 0, m);
    var th := s'.threads[0];
    s' := GoTo(from, n + 1, s', 0, Acquire(0), th.(phase := Entered));
    s' := GoTo(from, n + 1, s', 0, LookUp(0),
               th.(phase := Looked(if th.job.g in s.store.gateways then Some(s.store.gateways[th.job.g].spec)
                                   else None)));
  }

  /** And has its answer, if it asks for one. */
  ghost predicate HasAnswer(th: Thread, gw: Option<GwSpec>, ok: bool) {
    && th.job.McpJob? && th.patch == []
    && th.phase == if th.job.deleting then Asked(gw, ok) else Looked(gw)
  }

  lemma {:induction false} McpAnswered(from: State, n: nat, s: State, m: McpId, ok: bool) returns (s': State)
    requires Leads(from, s, n) && Quiescent(s) && m in Current(s.store) && (s.callback || ok)
    ensures Leads(from, s', n + 1) && s'.store == s.store && s'.rec == s.rec
    ensures var cr := Current(s.store)[m];
            var g := GatewayKey(m.namespace, cr.gateway);
            var gw := if g in s.store.gateways then Some(s.store.gateways[g].spec) else None;
            && s'.lock == map[g := 0] && Alone(s')
            && s'.threads[0].job == McpJob(m, g, cr.deleting, cr.finalizers) && HasAnswer(s'.threads[0], gw, ok)
  {
    s' := McpReads(from, n, s, m);
    var th := s'.threads[0];
    if th.job.deleting {
      s' := GoTo(from, n + 1, s', 0, Ask(0, ok), th.(phase := Asked(th.phase.gw, ok), seen := Answered(ok)));
    }
  }

  /** The verdict on an answered pass. */
  lemma {:induction false} McpVerdict(st: Store, th: Thread, gw: Option<GwSpec>, ok: bool)
    requires HasAnswer(th, gw, ok)
    ensures var own := MCP_FINALIZER in th.job.finalizers;
            var th' := Advance(st, th, Decide(0));
            && th'.job == th.job
            && (th.job.deleting && !ok ==> th'.phase == Finished && th'.patch == [])
            && (th.job.deleting && ok && own ==> th'.phase == Touching && th'.patch == [Drop(MCP_FINALIZER)])
            && (!th.job.deleting || (ok && !own) ==>
                  if gw.None? then th'.phase == Touching && th'.patch == [Ensure(MCP_FINALIZER)]
                  else th'.phase == OwnApplied(gw.value) && th'.patch == [])
  {
    assert Drops([MCP_FINALIZER]) == [Drop(MCP_FINALIZER)];
    assert Ensures([MCP_FINALIZER]) == [Ensure(MCP_FINALIZER)];
  }

  /** What a completed pass adds to its patch. */
  lemma {:induction false} CompletedPatch(st: Store, th: Thread)
    requires th.phase.Applying? && th.phase.next == Count(th.phase.snap.spec) && th.patch == []
    ensures var own := if th.job.GatewayJob? then GATEWAY_FINALIZER else MCP_FINALIZER;
            var th' := Advance(st, th, Complete(0));
            && th'.job == th.job
            && th'.phase == (if th.job.GatewayJob? then Finished else Touching)
            && th'.patch == if th.job.deleting || own in th.job.finalizers then [] else [Ensure(own)]
  {
    assert Ensures([GATEWAY_FINALIZER]) == [Ensure(GATEWAY_FINALIZER)];
    assert Ensures([MCP_FINALIZER]) == [Ensure(MCP_FINALIZER)];
    assert Ensures([]) == [];
  }

  // ---------------------------------------------------------------- the end of a pass

  /** Delivering a pass's one transform, or none, to an MCP. */
  lemma {:induction false} McpDelivered(st: Store, job: Job, patch: seq<Op>)
    requires job.McpJob? && job.m in Current(st) && st.hist != []
    requires patch == [] || patch == [Ensure(MCP_FINALIZER)] || patch == [Drop(MCP_FINALIZER)]
    requires Current(st)[job.m].deleting ==> Current(st)[job.m].finalizers != []
    ensures var fs := ApplyOps(patch, Current(st)[job.m].finalizers);
            var st' := DoPatch(st, job, patch);
            && Current(st') == CatalogWith(Current(st), job.m, fs) && st'.gateways == st.gateways && st'.hist != []
            && (MCP_FINALIZER in fs && patch != [] ==> job.m in st'.mcpProtected)
  {
    var cat := Current(st);
    var fs := ApplyOps(patch, cat[job.m].finalizers);
    OneOp(MCP_FINALIZER, cat[job.m].finalizers);
    if patch != [] && fs == cat[job.m].finalizers {
      assert cat[job.m := cat[job.m].(finalizers := fs)] == cat;
    }
  }

  lemma {:induction false} GatewayDelivered(st: Store, job: Job, patch: seq<Op>)
    requires job.GatewayJob? && job.g in st.gateways
    requires patch == [] || patch == [Ensure(GATEWAY_FINALIZER)] || patch == [Drop(GATEWAY_FINALIZER)]
    requires st.gateways[job.g].deleting ==> st.gateways[job.g].finalizers != []
    ensures var fs := ApplyOps(patch, st.gateways[job.g].finalizers);
            var st' := DoPatch(st, job, patch);
            && st'.gateways == GatewaysWith(st.gateways, job.g, fs) && st'.hist == st.hist
            && (GATEWAY_FINALIZER in fs && patch != [] ==> job.g in st'.gwProtected)
  {
    var gws := st.gateways;
    var fs := ApplyOps(patch, gws[job.g].finalizers);
    OneOp(GATEWAY_FINALIZER, gws[job.g].finalizers);
    if patch != [] && fs == gws[job.g].finalizers {
      assert gws[job.g := gws[job.g].(finalizers := fs)] == gws;
    }
  }

  /** A finished pass that ran alone is delivered. */
  lemma {:induction false} Ends(from: State, n: nat, s: State) returns (s': State)
    requires Leads(from, s, n) && Alone(s) && s.lock == map[]
    requires s.threads[0].phase == Finished && s.store.hist != []
    ensures Leads(from, s', n) && Quiescent(s') && s'.rec == s.rec
    ensures s'.store == DoPatch(s.store, s.threads[0].job, s.threads[0].patch)
  {
    s' := GoDeliver(from, n, s, 0);
    assert s'.threads == map[];
    PatchKeeps(s.store, s.threads[0].job, s.threads[0].patch);
  }

  /** An MCP pass that goes on to apply: its listing, its apply loop, the touch of the gateway. */
  lemma {:induction false} McpApplies(from: State, n: nat, s: State) returns (s': State)
    requires Leads(from, s, n) && Alone(s) && s.store.hist != []
    requires s.threads[0].job.McpJob? && s.threads[0].phase.OwnApplied? && s.threads[0].patch == []
    requires s.lock == map[s.threads[0].job.g := 0]
    ensures Leads(from, s', n) && s'.store == s.store && s'.lock == map[]
    ensures Alone(s')
    ensures var job := s.threads[0].job;
            var snap := SnapNow(s.store, s.threads[0].phase.spec, job.g);
            && s'.threads[0].job == job && s'.threads[0].phase == Finished
            && s'.threads[0].patch == (if job.deleting || MCP_FINALIZER in job.finalizers then []
                                       else [Ensure(MCP_FINALIZER)])
            && LogOf(s'.rec, job.g) == LogOf(s.rec, job.g) + Applies(snap, 0, Count(snap.spec), true)
            && job.g in s'.rec.settled && s'.rec.settled[job.g] == snap
  {
    var s1 := McpBegins(from, n, s);
    var s2 := ApplyAll(from, n, s1, 0);
    s' := McpCompletes(from, n, s2);
    assert LogOf(s'.rec, s.threads[0].job.g) == LogOf(s2.rec, s.threads[0].job.g);
  }

  lemma {:induction false} McpBegins(from: State, n: nat, s: State) returns (s': State)
    requires Leads(from, s, n) && Alone(s) && s.store.hist != []
    requires s.threads[0].job.McpJob? && s.threads[0].phase.OwnApplied?
    ensures Leads(from, s', n) && s'.store == s.store && s'.lock == s.lock && s'.rec == s.rec
    ensures Alone(s')
    ensures var th := s.threads[0];
            s'.threads[0] == th.(phase := Applying(SnapNow(s.store, th.phase.spec, th.job.g), 0))
  {
    var th := s.threads[0];
    var snap := SnapNow(s.store, th.phase.spec, th.job.g);
    s' := GoTo(from, n, s, 0, List(0), th.(phase := Phase.Listing(snap)));
    s' := GoTo(from, n, s', 0, Begin(0), th.(phase := Applying(snap, 0)));
  }

  lemma {:induction false} McpCompletes(from: State, n: nat, s: State) returns (s': State)
    requires Leads(from, s, n) && 0 in s.threads && s.threads[0].job.McpJob? && s.threads[0].patch == []
    requires s.threads[0].phase.Applying? && s.threads[0].phase.next == Count(s.threads[0].phase.snap.spec)
    ensures Leads(from, s', n) && s'.store == s.store && s'.lock == s.lock - {s.threads[0].job.g}
    ensures s'.threads.Keys == s.threads.Keys
    ensures var job := s.threads[0].job;
            && s'.threads[0].job == job && s'.threads[0].phase == Finished
            && s'.threads[0].patch == (if job.deleting || MCP_FINALIZER in job.finalizers then []
                                       else [Ensure(MCP_FINALIZER)])
            && s'.rec == s.rec.(settled := s.rec.settled[job.g := s.threads[0].phase.snap])
  {
    CompletedPatch(s.store, s.threads[0]);
    s' := Go(from, n, s, 0, Complete(0));
    s' := Go(from, n, s', 0, Leave(0));
  }

  // ---------------------------------------------------------------- every way an MCP pass can go

  /** Whether a pass of this MCP goes on to apply its gateway's objects. */
  predicate McpGoesOn(cr: McpCr, ok: bool) {
    !cr.deleting || (ok && MCP_FINALIZER !in cr.finalizers)
  }

  /** The MCP's finalizers after a pass alone. */
  function McpFinalizersAfter(cr: McpCr, ok: bool, gatewayThere: bool): seq<string> {
    if !McpGoesOn(cr, ok) then
      if ok then Without(cr.finalizers, MCP_FINALIZER) else cr.finalizers
    else if cr.deleting && gatewayThere then cr.finalizers
    else With(cr.finalizers, MCP_FINALIZER)
  }

  lemma {:induction false} McpDecided(from: State, n: nat, s: State, gw: Option<GwSpec>, ok: bool) returns (s': State)
    requires Leads(from, s, n) && Alone(s)
    requires HasAnswer(s.threads[0], gw, ok) && s.lock == map[s.threads[0].job.g := 0]
    ensures Leads(from, s', n) && s'.store == s.store && s'.rec == s.rec
    ensures Alone(s')
    ensures s'.lock == if s'.threads[0].phase.Finished? then map[] else s.lock
    ensures var job, own := s.threads[0].job, MCP_FINALIZER in s.threads[0].job.finalizers;
            var th' := s'.threads[0];
            && th'.job == job
            && (job.deleting && !ok ==> th'.phase == Finished && th'.patch == [])
            && (job.deleting && ok && own ==> th'.phase == Touching && th'.patch == [Drop(MCP_FINALIZER)])
            && (!job.deleting || (ok && !own) ==>
                  if gw.None? then th'.phase == Touching && th'.patch == [Ensure(MCP_FINALIZER)]
                  else th'.phase == OwnApplied(gw.value) && th'.patch == [])
  {
    McpVerdict(s.store, s.threads[0], gw, ok);
    s' := Go(from, n, s, 0, Decide(0));
  }

  /** The same pass, just before its patch is delivered. */
  lemma {:induction false} McpFinishes(from: State, n: nat, s: State, m: McpId, ok: bool) returns (s': State)
    requires Leads(from, s, n) && Quiescent(s) && m in Current(s.store) && (s.callback || ok)
    ensures Leads(from, s', n + 1) && s'.store == s.store && s'.lock == map[]
    ensures Alone(s') && s'.threads[0].phase == Finished
    ensures var cr := Current(s.store)[m];
            var g, own := GatewayKey(m.namespace, cr.gateway), MCP_FINALIZER in cr.finalizers;
            var there, th := g in s.store.gateways, s'.threads[0];
            && th.job == McpJob(m, g, cr.deleting, cr.finalizers)
            && th.patch == (if cr.deleting && (!ok || (!own && there)) then []
                            else if cr.deleting && own then [Drop(MCP_FINALIZER)]
                            else if own && there then []
                            else [Ensure(MCP_FINALIZER)])
            && if McpGoesOn(cr, ok) && there then
                 var snap := SnapNow(s.store, s.store.gateways[g].spec, g);
                 && LogOf(s'.rec, g) == LogOf(s.rec, g) + Applies(snap, 0, Count(snap.spec), true)
                 && g in s'.rec.settled && s'.rec.settled[g] == snap
               else s'.rec == s.rec
  {
    var cr := Current(s.store)[m];
    var g := GatewayKey(m.namespace, cr.gateway);
    var gw := if g in s.store.gateways then Some(s.store.gateways[g].spec) else None;
    s' := McpAnswered(from, n, s, m, ok);
    s' := McpDecided(from, n + 1, s', gw, ok);
    if s'.threads[0].phase.OwnApplied? {
      s' := McpApplies(from, n + 1, s');
    } else if s'.threads[0].phase.Touching? {
      s' := McpLeaves(from, n + 1, s');
    }
  }

  lemma {:induction false} McpLeaves(from: State, n: nat, s: State) returns (s': State)
    requires Leads(from, s, n) && Alone(s)
    requires s.threads[0].phase.Touching? && s.lock == map[s.threads[0].job.g := 0]
    ensures Leads(from, s', n) && s'.store == s.store && s'.lock == map[] && s'.rec == s.rec
    ensures Alone(s') && s'.threads[0] == s.threads[0].(phase := Finished)
  {
    s' := Go(from, n, s, 0, Leave(0));
  }

  /** An MCP pass that runs alone, whatever the MCP is like and whatever the answer. A live MCP ends up with the
      finalizer and, when its gateway is there, with all of the gateway's manifests applied from the listing of that
      moment. A deleting one keeps everything on a false answer and loses the finalizer on a true one. */
  lemma {:induction false} McpPassAlone(from: State, n: nat, s: State, m: McpId, ok: bool) returns (s': State)
    requires Leads(from, s, n) && Quiescent(s) && m in Current(s.store) && (s.callback || ok)
    requires Current(s.store)[m].deleting ==> Current(s.store)[m].finalizers != []
    ensures Leads(from, s', n + 1) && Quiescent(s') && s'.store.gateways == s.store.gateways
    ensures var cr := Current(s.store)[m];
            var g := GatewayKey(m.namespace, cr.gateway);
            && Current(s'.store)
               == CatalogWith(Current(s.store), m, McpFinalizersAfter(cr, ok, g in s.store.gateways))
            && (!cr.deleting && MCP_FINALIZER !in cr.finalizers ==> m in s'.store.mcpProtected)
            && if McpGoesOn(cr, ok) && g in s.store.gateways then
                 var snap := SnapNow(s.store, s.store.gateways[g].spec, g);
                 && LogOf(s'.rec, g) == LogOf(s.rec, g) + Applies(snap, 0, Count(snap.spec), true)
                 && g in s'.rec.settled && s'.rec.settled[g] == snap
               else s'.rec == s.rec
  {
    var cr := Current(s.store)[m];
    var g := GatewayKey(m.namespace, cr.gateway);
    s' := McpFinishes(from, n, s, m, ok);
    OneOp(MCP_FINALIZER, cr.finalizers);
    McpDelivered(s.store, s'.threads[0].job, s'.threads[0].patch);
    s' := Ends(from, n + 1, s');
  }

  /** In particular a live MCP is protected once its first pass is delivered, gateway or not. */
  lemma {:induction false} LiveMcpGetsProtected(from: State, n: nat, s: State, m: McpId) returns (s': State)
    requires Leads(from, s, n) && Quiescent(s) && m in Current(s.store) && !Current(s.store)[m].deleting
    ensures Leads(from, s', n + 1) && Quiescent(s') && m in Current(s'.store) && !Current(s'.store)[m].deleting
    ensures "vmcp.io/unregister-before-gc" in Current(s'.store)[m].finalizers
    ensures "vmcp.io/unregister-before-gc" !in Current(s.store)[m].finalizers ==> m in s'.store.mcpProtected
  {
    s' := McpPassAlone(from, n, s, m, true);
  }

  /** What a listing sees: the MCPs of the gateway's namespace that name the gateway, deleting ones included, as they
      are at the newest version. */
  lemma {:induction false} ListingIs(st: Store, spec: GwSpec, g: GatewayKey, m: McpId)
    requires st.hist != []
    ensures var snap := SnapNow(st, spec, g);
            && snap.spec == spec
            && (m in snap.mcps <==> m in Current(st) && m.namespace == g.namespace && Current(st)[m].gateway == g.name)
            && (m in snap.mcps ==> snap.mcps[m] == Current(st)[m].rev)
            && snap.version == |st.hist| - 1 && st.hist[snap.version] == Current(st)
    ensures Attached(Current(st), m, g)
       <==> m in Current(st) && m.namespace == g.namespace && Current(st)[m].gateway == g.name
  {
  }

  /** The manifests of a pass, in order: four fixed objects and then what the spec asks for. */
  lemma {:induction false} ManifestsInOrder(snap: Snapshot, byMcp: bool)
    ensures var all := Applies(snap, 0, Count(snap.spec), byMcp);
            && |all| == 4 + |snap.spec.extras|
            && all[0].item == Manifest(Pvc, false) && all[1].item == Manifest(ConfigMap, true)
            && all[2].item == Manifest(Service, false) && all[3].item == Manifest(Deployment, true)
            && (forall i | 4 <= i < |all| :: all[i].item == Manifest(snap.spec.extras[i - 4], false))
            && (forall i | 0 <= i < |all| :: all[i].snap == snap && all[i].byMcp == byMcp)
  {
    var all := Applies(snap, 0, Count(snap.spec), byMcp);
    assert forall i | 0 <= i < |all| :: all[i] == Applied(ManifestAt(snap.spec, 0 + i), snap, byMcp);
    assert ManifestAt(snap.spec, 0) == FIXED[0] && ManifestAt(snap.spec, 1) == FIXED[1];
    assert ManifestAt(snap.spec, 2) == FIXED[2] && ManifestAt(snap.spec, 3) == FIXED[3];
  }

  // ---------------------------------------------------------------- every way a gateway pass can go

  /** Whether a pass of this gateway goes on to apply. */
  predicate GatewayGoesOn(cr: GwCr, children: bool) {
    !cr.deleting || (!children && GATEWAY_FINALIZER !in cr.finalizers)
  }

  function GatewayFinalizersAfter(cr: GwCr, children: bool): seq<string> {
    if !cr.deleting then With(cr.finalizers, GATEWAY_FINALIZER)
    else if children then cr.finalizers
    else Without(cr.finalizers, GATEWAY_FINALIZER)
  }

  lemma {:induction false} GatewayVerdict(st: Store, th: Thread)
    requires th.job.GatewayJob? && th.phase.Listing? && th.patch == []
    ensures var own, children := GATEWAY_FINALIZER in th.job.finalizers, th.phase.snap.mcps != map[];
            Advance(st, th, Decide(0))
            == if th.job.deleting && children then th.(phase := Finished)
               else if th.job.deleting && own then th.(phase := Finished, patch := [Drop(GATEWAY_FINALIZER)])
               else th.(phase := Applying(th.phase.snap, 0))
  {
    assert Drops([GATEWAY_FINALIZER]) == [Drop(GATEWAY_FINALIZER)];
  }

  lemma {:induction false} GatewayLocks(from: State, n: nat, s: State, g: GatewayKey) returns (s': State)
    requires Leads(from, s, n) && Quiescent(s) && g in s.store.gateways
    ensures Leads(from, s', n + 1) && s'.store == s.store && s'.rec == s.rec && s'.lock == map[g := 0] && Alone(s')
    ensures var cr := s.store.gateways[g];
            var snap := SnapNow(s.store, cr.spec, g);
            s'.threads[0] == Thread(GatewayJob(g, cr.spec, cr.deleting, cr.finalizers), Phase.Listing(snap), [],
                                    Listed(snap))
  {
    s' := GoGateway(from, n, s, 0, g);
    s' := GatewayLists(from, n + 1, s', 0);
  }

  lemma {:induction false} GatewayApplies(from: State, n: nat, s: State) returns (s': State)
    requires Leads(from, s, n) && Alone(s) && s.threads[0].job.GatewayJob? && s.threads[0].patch == []
    requires s.threads[0].phase.Applying? && s.threads[0].phase.next == 0 && s.lock == map[s.threads[0].job.g := 0]
    ensures Leads(from, s', n) && s'.store == s.store && s'.lock == map[] && Alone(s')
    ensures var job, snap := s.threads[0].job, s.threads[0].phase.snap;
            && s'.threads[0].job == job && s'.threads[0].phase == Finished
            && s'.threads[0].patch == (if job.deleting || GATEWAY_FINALIZER in job.finalizers then []
                                       else [Ensure(GATEWAY_FINALIZER)])
            && LogOf(s'.rec, job.g) == LogOf(s.rec, job.g) + Applies(snap, 0, Count(snap.spec), false)
            && job.g in s'.rec.settled && s'.rec.settled[job.g] == snap
  {
    var s1 := ApplyAll(from, n, s, 0);
    CompletedPatch(s1.store, s1.threads[0]);
    s' := Go(from, n, s1, 0, Complete(0));
    assert LogOf(s'.rec, s.threads[0].job.g) == LogOf(s1.rec, s.threads[0].job.g);
  }

  lemma {:induction false} GatewayFinishes(from: State, n: nat, s: State, g: GatewayKey) returns (s': State)
    requires Leads(from, s, n) && Quiescent(s) && g in s.store.gateways
    ensures Leads(from, s', n + 1) && s'.store == s.store && s'.lock == map[] && Alone(s')
    ensures var cr := s.store.gateways[g];
            var snap, own := SnapNow(s.store, cr.spec, g), GATEWAY_FINALIZER in cr.finalizers;
            var children, th := snap.mcps != map[], s'.threads[0];
            && th.job == GatewayJob(g, cr.spec, cr.deleting, cr.finalizers) && th.phase == Finished
            && th.patch == (if cr.deleting then if own && !children then [Drop(GATEWAY_FINALIZER)] else []
                            else if own then [] else [Ensure(GATEWAY_FINALIZER)])
            && if GatewayGoesOn(cr, children) then
                 && LogOf(s'.rec, g) == LogOf(s.rec, g) + Applies(snap, 0, Count(snap.spec), false)
                 && g in s'.rec.settled && s'.rec.settled[g] == snap
               else s'.rec == s.rec
  {
    s' := GatewayLocks(from, n, s, g);
    GatewayVerdict(s'.store, s'.threads[0]);
    s' := Go(from, n + 1, s', 0, Decide(0));
    if s'.threads[0].phase.Applying? {
      s' := GatewayApplies(from, n + 1, s');
    }
  }

  lemma {:induction false} ListedIff(st: Store, spec: GwSpec, g: GatewayKey)
    requires st.hist != []
    ensures SnapNow(st, spec, g).mcps != map[]
       <==> exists m :: m in Current(st) && m.namespace == g.namespace && Current(st)[m].gateway == g.name
  {
    var mcps := SnapNow(st, spec, g).mcps;
    forall m ensures m in mcps <==> m in Current(st) && m.namespace == g.namespace && Current(st)[m].gateway == g.name {
      ListingIs(st, spec, g, m);
    }
    if mcps != map[] {
      var m :| m in mcps;
    }
  }

  /** A gateway pass that runs alone. A live gateway ends up with the finalizer and all of its manifests, applied from
      the spec of its event and the listing of that moment. A deleting one keeps everything while an MCP is attached
      and loses the finalizer when none is. */
  lemma {:induction false} GatewayPassAlone(from: State, n: nat, s: State, g: GatewayKey) returns (s': State)
    requires Leads(from, s, n) && Quiescent(s) && g in s.store.gateways
    requires s.store.gateways[g].deleting ==> s.store.gateways[g].finalizers != []
    ensures Leads(from, s', n + 1) && Quiescent(s') && s'.store.hist == s.store.hist
    ensures var cr := s.store.gateways[g];
            var snap := SnapNow(s.store, cr.spec, g);
            var children := exists m ::
              m in Current(s.store) && m.namespace == g.namespace && Current(s.store)[m].gateway == g.name;
            && s'.store.gateways == GatewaysWith(s.store.gateways, g, GatewayFinalizersAfter(cr, children))
            && (!cr.deleting && GATEWAY_FINALIZER !in cr.finalizers ==> g in s'.store.gwProtected)
            && if GatewayGoesOn(cr, children) then
                 && LogOf(s'.rec, g) == LogOf(s.rec, g) + Applies(snap, 0, Count(snap.spec), false)
                 && g in s'.rec.settled && s'.rec.settled[g] == snap
               else s'.rec == s.rec
  {
    var cr := s.store.gateways[g];
    s' := GatewayFinishes(from, n, s, g);
    ListedIff(s.store, cr.spec, g);
    OneOp(GATEWAY_FINALIZER, cr.finalizers);
    if GATEWAY_FINALIZER !in cr.finalizers { WithoutAbsent(cr.finalizers, GATEWAY_FINALIZER); }
    GatewayDelivered(s.store, s'.threads[0].job, s'.threads[0].patch);
    s' := Ends(from, n + 1, s');
  }

  lemma {:induction false} LiveGatewayGetsProtected(from: State, n: nat, s: State, g: GatewayKey) returns (s': State)
    requires Leads(from, s, n) && Quiescent(s) && g in s.store.gateways && !s.store.gateways[g].deleting
    ensures Leads(from, s', n + 1) && Quiescent(s') && g in s'.store.gateways && !s'.store.gateways[g].deleting
    ensures "vmcp.io/gateway-protection" in s'.store.gateways[g].finalizers
    ensures "vmcp.io/gateway-protection" !in s.store.gateways[g].finalizers ==> g in s'.store.gwProtected
  {
    s' := GatewayPassAlone(from, n, s, g);
  }

  // ---------------------------------------------------------------- live passes in any company

  /** The step with which a pass for a live object is through: its apply loop is complete, or it is an MCP pass whose
      gateway is missing. */
  predicate Through(s: State, t: Tid, a: Action)
    requires Enabled(s, a)
  {
    && t in s.threads && !s.threads[t].job.deleting
    && (a == Complete(t) || GatewayMissing(s, t, a))
  }

  predicate GatewayMissing(s: State, t: Tid, a: Action)
    requires Enabled(s, a)
  {
    a == Decide(t) && t in s.threads && s.threads[t].job.McpJob? && s.threads[t].phase.Looked?
    && s.threads[t].phase.gw.None?
  }

  function OwnName(job: Job): string {
    if job.GatewayJob? then "vmcp.io/gateway-protection" else "vmcp.io/unregister-before-gc"
  }

  /** The object of a pass is there and carries the operator's finalizer. */
  predicate Holds(st: Store, job: Job) {
    match job
    case GatewayJob(g, _, _, _) => HoldsGateway(st, g)
    case McpJob(m, _, _, _) => HoldsMcp(st, m)
  }

  predicate Exists(st: Store, job: Job) {
    match job
    case GatewayJob(g, _, _, _) => g in st.gateways
    case McpJob(m, _, _, _) => m in Current(st)
  }

  /** What such a step schedules. */
  lemma {:induction false} ThroughSchedules(s: State, t: Tid, a: Action)
    requires InvPatch(s) && Enabled(s, a) && Through(s, t, a)
    ensures var s' := Do(s, a);
            var job, own := s.threads[t].job, OwnName(s.threads[t].job);
            && t in s'.threads && s'.threads[t].job == job
            && (s'.threads[t].phase.Touching? || s'.threads[t].phase.Finished?)
            && (own !in job.finalizers || GatewayMissing(s, t, a) ==> s'.threads[t].patch == [Ensure(own)])
            && (own in job.finalizers && !GatewayMissing(s, t, a) ==> s'.threads[t].patch == [])
  {
    assert PatchOk(s.threads[t]);
    var s', th' := HandlerEffect(s, a);
    assert Ensures([GATEWAY_FINALIZER]) == [Ensure(GATEWAY_FINALIZER)];
    assert Ensures([MCP_FINALIZER]) == [Ensure(MCP_FINALIZER)];
    assert Ensures([]) == [];
  }

  /** A run in which the pass is neither delivered nor robbed of its patch. */
  predicate Unharmed(run: seq<Action>, t: Tid) {
    Deliver(t) !in run && Crash(t, false) !in run
  }

  /** A pass that is through keeps its patch. */
  lemma {:induction false} ThroughStep(s: State, a: Action, t: Tid)
    requires Enabled(s, a) && a != Deliver(t) && a != Crash(t, false) && t in s.threads
    requires s.threads[t].phase.Touching? || s.threads[t].phase.Finished?
    ensures var s' := Do(s, a);
            && t in s'.threads && s'.threads[t].job == s.threads[t].job && s'.threads[t].patch == s.threads[t].patch
            && (s'.threads[t].phase.Touching? || s'.threads[t].phase.Finished?)
  {
    if IsHandler(a) {
      var s', th' := HandlerEffect(s, a);
    }
  }

  lemma {:induction false} ThroughRun(s: State, run: seq<Action>, t: Tid)
    requires Valid(s, run) && Unharmed(run, t) && t in s.threads
    requires s.threads[t].phase.Touching? || s.threads[t].phase.Finished?
    ensures var s' := Exec(s, run);
            t in s'.threads && s'.threads[t].job == s.threads[t].job && s'.threads[t].patch == s.threads[t].patch
    decreases |run|
  {
    if run != [] {
      ThroughStep(s, run[0], t);
      ThroughRun(Do(s, run[0]), run[1..], t);
    }
  }

  /** Delivering an ensure, or nothing. */
  lemma {:induction false} EnsureDelivered(st: Store, job: Job, patch: seq<Op>)
    requires st.hist != [] && (patch == [Ensure(OwnName(job))] || patch == []) && Exists(DoPatch(st, job, patch), job)
    ensures Holds(DoPatch(st, job, patch), job) <==> patch != [] || Holds(st, job)
  {
    if patch != [] {
      match job {
        case GatewayJob(g, _, _, _) => if g in st.gateways { OneOp(GATEWAY_FINALIZER, st.gateways[g].finalizers); }
        case McpJob(m, _, _, _) => if m in Current(st) { OneOp(MCP_FINALIZER, Current(st)[m].finalizers); }
      }
    }
  }

  /** Whatever runs beside it: when a pass for a live object is through and its patch is delivered, the object, if it
      still exists, carries the operator's finalizer; the only exception is an object that carried it when the pass was
      called and has lost it since, to another pass. */
  lemma {:induction false} LivePassProtects(callback: bool, s: State, t: Tid, a: Action, run: seq<Action>)
    requires Reachable(callback, s) && Enabled(s, a) && Through(s, t, a)
    requires Valid(Do(s, a), run) && Unharmed(run, t) && Enabled(Exec(Do(s, a), run), Deliver(t))
    requires Exists(Do(Exec(Do(s, a), run), Deliver(t)).store, s.threads[t].job)
    ensures var job, before := s.threads[t].job, Exec(Do(s, a), run);
            var after := Do(before, Deliver(t));
            Holds(after.store, job)
            <==> OwnName(job) !in job.finalizers || GatewayMissing(s, t, a) || Holds(before.store, job)
  {
    ReachableInv(callback, s);
    ThroughSchedules(s, t, a);
    ThroughRun(Do(s, a), run, t);
    var before := Exec(Do(s, a), run);
    var after := DeliverEffect(before, t);
    HistStays(s, a, run);
    EnsureDelivered(before.store, s.threads[t].job, before.threads[t].patch);
  }

  lemma {:induction false} HistStays(s: State, a: Action, run: seq<Action>)
    requires Inv(s) && Enabled(s, a) && Valid(Do(s, a), run)
    ensures Exec(Do(s, a), run).store.hist != []
  {
    InvStep(s, a);
    InvRun(Do(s, a), run);
    assert InvLock(Exec(Do(s, a), run));
  }
}
