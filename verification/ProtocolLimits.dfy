/** Reachable runs that show where the protocol's guarantees stop. In each of them a handler that finds its lock
    free takes it before anything else happens, and waiting handlers get it in the order they were called, as
    the event loop's locks do. */
module ProtocolLimits {
  import opened Common
  import opened Finalizers
  import opened Protocol
  import opened ProtocolSafety
  import opened ProtocolRuns
  import opened ProtocolSteps

  lemma {:induction false} FirstSchedule(g: GatewayKey, spec: GwSpec)
    ensures FinalAdds(GatewayJob(g, spec, false, [])) == [Ensure(GATEWAY_FINALIZER)]
    ensures ApplyOps([Ensure(GATEWAY_FINALIZER)], []) == [GATEWAY_FINALIZER]
  {
    assert [Ensure(GATEWAY_FINALIZER)][1..] == [];
  }

  /** A new gateway with its first pass run to the end and delivered. */
  lemma {:induction false} ProtectedGateway(callback: bool, g: GatewayKey, extras: seq<Slot>) returns (s: State)
    ensures Leads(Init(callback), s, 1)
    ensures s.threads == map[] && s.lock == map[] && s.store.hist == [map[]] && s.store.usedMcps == {}
    ensures s.store.gateways == map[g := GwCr(GwSpec(1, extras), false, [GATEWAY_FINALIZER])]
    ensures g in s.store.gwProtected && Rev(s.store, g) == 1
    ensures var snap := SnapNow(s.store, GwSpec(1, extras), g);
            LogOf(s.rec, g) == Applies(snap, 0, Count(snap.spec), false)
  {
    var from := Init(callback);
    LeadsHere(from);
    s := GoEdit(from, 0, from, CreateGateway(g, extras));
    s := GoGateway(from, 0, s, 1, g);
    s := GatewaySection(from, 1, s, 1);
    FirstSchedule(g, GwSpec(1, extras));
    assert s.threads[1].patch == [Ensure(GATEWAY_FINALIZER)];
    s := GoDeliver(from, 1, s, 1);
    assert s.threads == map[] && s.lock == map[];
  }

  /** The schedule of a deleting pass over an empty listing. */
  lemma {:induction false} DropDecided(st: Store, th: Thread, t: Tid)
    requires th.job.GatewayJob? && th.job.deleting && th.job.finalizers == [GATEWAY_FINALIZER] && th.patch == []
    requires th.phase.Listing? && th.phase.snap.mcps == map[]
    ensures Advance(st, th, Decide(t)) == th.(phase := Finished, patch := [Drop(GATEWAY_FINALIZER)])
  {
    assert Drops([GATEWAY_FINALIZER]) == [Drop(GATEWAY_FINALIZER)];
  }

  /** The gateway is being deleted, its last pass has seen no MCP and left its section with the drop. */
  lemma {:induction false} DropUnderWay(callback: bool, g: GatewayKey) returns (s: State)
    ensures Leads(Init(callback), s, 2)
    ensures s.store.gateways == map[g := GwCr(GwSpec(1, []), true, [GATEWAY_FINALIZER])] && g in s.store.gwProtected
    ensures s.store.hist == [map[]] && s.store.usedMcps == {}
    ensures 2 in s.threads && s.threads[2].job.GatewayJob? && s.threads[2].job.g == g
            && s.threads[2].phase == Finished && s.threads[2].patch == [Drop(GATEWAY_FINALIZER)]
  {
    var from := Init(callback);
    s := ProtectedGateway(callback, g, []);
    s := GoEdit(from, 1, s, DeleteGateway(g));
    s := GoGateway(from, 1, s, 2, g);
    s := GatewayLists(from, 2, s, 2);
    var th := s.threads[2];
    assert th.phase.snap.mcps == map[];
    DropDecided(s.store, th, 2);
    s := GoTo(from, 2, s, 2, Decide(2), th.(phase := Finished, patch := [Drop(GATEWAY_FINALIZER)]));
  }

  /** The drop is delivered after the lock is released: an MCP created in between is left attached
      to a gateway that is gone. `ProtocolDeletion.OrphanedIff` says exactly when. */
  lemma {:induction false} LateMcpIsOrphaned(callback: bool) returns (s: State, g: GatewayKey, m: McpId)
    ensures Reachable(callback, s)
    ensures g in s.store.gwProtected && g !in s.store.gateways
    ensures Attached(Current(s.store), m, g) && !Current(s.store)[m].deleting
  {
    g := GatewayKey("team", "main");
    m := McpId("team", "docs");
    s := DropUnderWay(callback, g);
    s := GoEdit(Init(callback), 2, s, CreateMcp(m, "main", 1));
    assert ApplyOps([Drop(GATEWAY_FINALIZER)], [GATEWAY_FINALIZER]) == [] by {
      assert Without([GATEWAY_FINALIZER], GATEWAY_FINALIZER) == [];
    }
    s := GoDeliver(Init(callback), 2, s, 2);
  }

  // ---------------------------------------------------------------- an older spec put back

  /** A new gateway with one MCP, before any pass. */
  lemma {:induction false} GatewayAndMcp(callback: bool, g: GatewayKey, m: McpId) returns (s: State)
    ensures Leads(Init(callback), s, 0) && s.lock == map[] && s.threads == map[] && LogOf(s.rec, g) == []
    ensures s.store.gateways == map[g := GwCr(GwSpec(1, []), false, [])] && Rev(s.store, g) == 1
    ensures s.store.hist != [] && Current(s.store) == map[m := McpCr(g.name, 1, false, [])]
  {
    var from := Init(callback);
    LeadsHere(from);
    s := GoEdit(from, 0, from, CreateGateway(g, []));
    s := GoEdit(from, 0, s, CreateMcp(m, g.name, 1));
  }

  /** The MCP's first pass is called and takes the free lock. */
  lemma {:induction false} McpHolds(callback: bool, g: GatewayKey, m: McpId) returns (s: State)
    requires m.namespace == g.namespace
    ensures Leads(Init(callback), s, 1) && s.lock == map[g := 2] && LogOf(s.rec, g) == [] && s.store.hist != []
    ensures s.store.gateways == map[g := GwCr(GwSpec(1, []), false, [])] && Rev(s.store, g) == 1
    ensures s.threads == map[2 := Thread(McpJob(m, g, false, []), Entered, [], Nothing)]
  {
    var from := Init(callback);
    s := GatewayAndMcp(callback, g, m);
    s := GoMcp(from, 0, s, 2, m);
    assert s.threads == map[2 := Thread(McpJob(m, g, false, []), Waiting, [], Nothing)] && s.lock == map[];
    s := GoTo(from, 1, s, 2, Acquire(2), Thread(McpJob(m, g, false, []), Entered, [], Nothing));
  }

  /** A gateway pass is called with the event of revision 1 and waits behind it; the gateway is edited to
      revision 2. */
  lemma {:induction false} QueuedBehindEdit(callback: bool, g: GatewayKey, m: McpId) returns (s: State)
    requires m.namespace == g.namespace
    ensures Leads(Init(callback), s, 2) && s.lock == map[g := 2] && LogOf(s.rec, g) == [] && s.store.hist != []
    ensures g in s.store.gateways && s.store.gateways[g].spec == GwSpec(2, [])
    ensures s.threads == map[2 := Thread(McpJob(m, g, false, []), Entered, [], Nothing),
                             1 := Thread(GatewayJob(g, GwSpec(1, []), false, []), Waiting, [], Nothing)]
  {
    var from := Init(callback);
    s := McpHolds(callback, g, m);
    s := GoGateway(from, 1, s, 1, g);
    s := GoEdit(from, 2, s, EditGateway(g, []));
  }

  /** A gateway pass applies the spec of its event, read before the lock: queued behind an MCP pass
      that saw a newer spec, it puts the older one back. `ProtocolRuns.PassStepsBackIff` says exactly when. */
  lemma {:induction false} StaleSpecCanWin(callback: bool) returns (s: State, g: GatewayKey)
    ensures Reachable(callback, s)
    ensures |LogOf(s.rec, g)| == 8 && LogOf(s.rec, g)[0].byMcp
    ensures LogOf(s.rec, g)[4].snap.spec.rev < LogOf(s.rec, g)[0].snap.spec.rev
  {
    var from := Init(callback);
    g := GatewayKey("team", "main");
    s := QueuedBehindEdit(callback, g, McpId("team", "docs"));
    s := McpSection(from, 2, s, 2);
    assert s.lock == map[] && s.threads[1].job == GatewayJob(g, GwSpec(1, []), false, []);
    s := GatewaySection(from, 2, s, 1);
  }

  // ---------------------------------------------------------------- leftover objects

  /** A pass over a spec with one route was delivered; then the spec gives the route up. */
  lemma {:induction false} RouteGivenUp(callback: bool, g: GatewayKey, route: Slot) returns (s: State)
    ensures Leads(Init(callback), s, 1) && s.threads == map[] && s.lock == map[] && s.store.hist != []
    ensures s.store.gateways == map[g := GwCr(GwSpec(2, []), false, [GATEWAY_FINALIZER])]
    ensures EverApplied(LogOf(s.rec, g), route) && Rev(s.store, g) == 2
  {
    var from := Init(callback);
    s := ProtectedGateway(callback, g, [route]);
    var snap := SnapNow(s.store, GwSpec(1, [route]), g);
    assert Applies(snap, 0, Count(snap.spec), false)[4].item == ManifestAt(snap.spec, 4);
    assert LogOf(s.rec, g)[4].item.slot == route;
    s := GoEdit(from, 1, s, EditGateway(g, []));
  }

  /** A second pass settles the newest spec, yet the route it gave up is still there, of the first revision.
      `ProtocolRuns.LeftoverIff` says exactly when. */
  lemma {:induction false} LeftoverStays(callback: bool) returns (s: State, g: GatewayKey, route: Slot)
    ensures Reachable(callback, s)
    ensures g in s.rec.settled && g in s.store.gateways && s.rec.settled[g].spec == s.store.gateways[g].spec
    ensures !Gives(s.store.gateways[g].spec, route) && Leftover(s, g, route)
    ensures s.rec.objects[(g, route)].snap.spec.rev < s.store.gateways[g].spec.rev
  {
    var from := Init(callback);
    g, route := GatewayKey("team", "main"), Other("HTTPRoute/main-admin");
    s := RouteGivenUp(callback, g, route);
    ghost var was := s;
    s := GoGateway(from, 1, s, 2, g);
    s := GatewaySection(from, 2, s, 2);
    var i :| 0 <= i < |LogOf(was.rec, g)| && LogOf(was.rec, g)[i].item.slot == route;
    assert LogOf(s.rec, g)[i].item.slot == route;
    LeftoverIff(callback, s, g, route);
    LeftoverIsOlder(callback, s, g, route);
  }
}
