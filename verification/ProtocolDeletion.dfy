/** Deleting a gateway: it goes after its last MCP, every effective pass over a dying family removes one object,
    and undisturbed passes finish the job in children + 1 handler calls. */
module ProtocolDeletion {
  import opened Common
  import opened Finalizers
  import opened Protocol
  import opened ProtocolSafety
  import opened ProtocolFinalizers
  import opened ProtocolRuns
  import opened ProtocolSteps

  function AttachedSet(st: Store, g: GatewayKey): set<McpId> {
    set m | m in Current(st) && Attached(Current(st), m, g)
  }

  /** Objects of the gateway's family still in the cluster. */
  function Left(st: Store, g: GatewayKey): nat {
    |AttachedSet(st, g)| + if g in st.gateways then 1 else 0
  }

  /** The whole family is being deleted and waits for the operator's finalizers only. */
  ghost predicate Family(st: Store, g: GatewayKey) {
    && (g in st.gateways ==> st.gateways[g].deleting && st.gateways[g].finalizers == [GATEWAY_FINALIZER])
    && forall m | m in Current(st) && Attached(Current(st), m, g) ::
         Current(st)[m].deleting && Current(st)[m].finalizers == [MCP_FINALIZER]
  }

  /** Users attach or detach no MCP and put no foreign finalizer on the family; anything else may happen. */
  ghost predicate Undisturbed(st: Store, a: Action, g: GatewayKey) {
    a.Change? ==>
      match a.edit
      case CreateGateway(h, _) => h != g
      case ForeignGateway(h, _) => h != g
      case CreateMcp(m, gw, _) => !(m.namespace == g.namespace && gw == g.name)
      case EditMcp(m, gw, _) => (m.namespace == g.namespace && gw == g.name) <==> Attached(Current(st), m, g)
      case ForeignMcp(m, _) => !Attached(Current(st), m, g)
      case _ => true
  }

  lemma {:induction false} DropOnly(name: string)
    ensures ApplyOps([Drop(name)], [name]) == []
    ensures ApplyOps([Ensure(name)], [name]) == [name]
  {
    assert Without([name], name) == [];
    assert [Drop(name)][1..] == [] && [Ensure(name)][1..] == [];
  }

  lemma {:induction false} McpPatchFamily(st: Store, m: McpId, patch: seq<Op>, g: GatewayKey)
    requires Family(st, g) && st.hist != [] && m in Current(st)
    requires patch == [Ensure(MCP_FINALIZER)] || patch == [Drop(MCP_FINALIZER)]
    ensures var st' := PutMcp(st, m, Current(st)[m].(finalizers := ApplyOps(patch, Current(st)[m].finalizers)));
            && Family(st', g) && st'.gateways == st.gateways
            && (AttachedSet(st', g) == AttachedSet(st, g)
                || (m in AttachedSet(st, g) && AttachedSet(st', g) == AttachedSet(st, g) - {m}))
  {
    var st' := PutMcp(st, m, Current(st)[m].(finalizers := ApplyOps(patch, Current(st)[m].finalizers)));
    DropOnly(MCP_FINALIZER);
    if m in AttachedSet(st, g) {
      assert Current(st)[m].deleting && Current(st)[m].finalizers == [MCP_FINALIZER];
      assert patch == [Drop(MCP_FINALIZER)] ==> Current(st') == Current(st) - {m};
      assert patch == [Ensure(MCP_FINALIZER)] ==> Current(st') == Current(st);
    }
    assert forall k | k != m :: k in Current(st') <==> k in Current(st);
    assert forall k | k != m && k in Current(st) :: Current(st')[k] == Current(st)[k];
  }

  /** A delivery to a gateway: it stays as it was, or it is gone because its only finalizer was dropped. */
  lemma {:induction false} GatewayPatchFamily(st: Store, h: GatewayKey, patch: seq<Op>, g: GatewayKey)
    requires Family(st, g) && h in st.gateways
    requires patch == [Ensure(GATEWAY_FINALIZER)] || patch == [Drop(GATEWAY_FINALIZER)]
    ensures var st' := PutGateway(st, h, st.gateways[h].(finalizers := ApplyOps(patch, st.gateways[h].finalizers)));
            && Family(st', g) && Current(st') == Current(st)
            && (g in st'.gateways ==> g in st.gateways)
  {
    DropOnly(GATEWAY_FINALIZER);
    var fs := ApplyOps(patch, st.gateways[h].finalizers);
    var st' := PutGateway(st, h, st.gateways[h].(finalizers := fs));
    assert st'.hist == st.hist;
    if h == g {
      assert st.gateways[g].finalizers == [GATEWAY_FINALIZER];
      assert fs == [GATEWAY_FINALIZER] || fs == [];
    } else {
      assert g in st'.gateways <==> g in st.gateways;
      assert g in st.gateways ==> st'.gateways[g] == st.gateways[g];
    }
    assert Current(st') == Current(st);
    assert forall m | m in Current(st') && Attached(Current(st'), m, g) ::
        m in Current(st) && Attached(Current(st), m, g);
  }

  lemma {:induction false} LeftSame(st: Store, st': Store, g: GatewayKey)
    requires Current(st') == Current(st) && (g in st'.gateways ==> g in st.gateways)
    ensures AttachedSet(st', g) == AttachedSet(st, g)
    ensures Left(st', g) == Left(st, g) || Left(st', g) == Left(st, g) - 1
  {
  }

  lemma {:induction false} LeftMcp(st: Store, st': Store, g: GatewayKey, m: McpId)
    requires st'.gateways == st.gateways
    requires AttachedSet(st', g) == AttachedSet(st, g)
             || (m in AttachedSet(st, g) && AttachedSet(st', g) == AttachedSet(st, g) - {m})
    ensures Left(st', g) == Left(st, g) || Left(st', g) == Left(st, g) - 1
  {
  }

  /** One delivery changes the family by nothing, or by exactly the object whose drop it carries. */
  lemma {:induction false} DeliverFamily(s: State, t: Tid, g: GatewayKey)
    requires Inv(s) && Family(s.store, g) && Enabled(s, Deliver(t))
    ensures var st, st' := s.store, Do(s, Deliver(t)).store;
            && Family(st', g) && AttachedSet(st', g) <= AttachedSet(st, g)
            && (g in st'.gateways ==> g in st.gateways)
            && (Left(st', g) == Left(st, g) || Left(st', g) == Left(st, g) - 1)
  {
    var s' := DeliverEffect(s, t);
    var st, job, patch := s.store, s.threads[t].job, s.threads[t].patch;
    assert PatchOk(s.threads[t]);
    if patch == [] {
      assert s'.store == st;
    } else if job.McpJob? {
      if job.m in Current(st) {
        McpPatchFamily(st, job.m, patch, g);
        LeftMcp(st, s'.store, g, job.m);
      }
    } else if job.g in st.gateways {
      GatewayPatchFamily(st, job.g, patch, g);
      LeftSame(st, s'.store, g);
    }
  }

  lemma {:induction false} EditFamily(s: State, e: Edit, g: GatewayKey)
    requires Inv(s) && Family(s.store, g) && Enabled(s, Change(e)) && Undisturbed(s.store, Change(e), g)
    ensures var st, st' := s.store, Do(s, Change(e)).store;
            && Family(st', g) && AttachedSet(st', g) == AttachedSet(st, g)
            && (g in st'.gateways <==> g in st.gateways)
  {
    var st, st' := s.store, Do(s, Change(e)).store;
    forall m
      ensures m in AttachedSet(st', g) <==> m in AttachedSet(st, g)
      ensures m in AttachedSet(st', g) ==> Current(st')[m].deleting && Current(st')[m].finalizers == [MCP_FINALIZER]
    {
      assert McpOk(st, s.ev, m);
      assert m in AttachedSet(st, g) ==> Current(st)[m].deleting && Current(st)[m].finalizers == [MCP_FINALIZER];
    }
    assert forall m | m in Current(st') && Attached(Current(st'), m, g) :: m in AttachedSet(st', g);
  }

  lemma {:induction false} FamilyStep(s: State, a: Action, g: GatewayKey)
    requires Inv(s) && Family(s.store, g) && Enabled(s, a) && Undisturbed(s.store, a, g)
    ensures var st, st' := s.store, Do(s, a).store;
            && Family(st', g) && AttachedSet(st', g) <= AttachedSet(st, g)
            && (g in st'.gateways ==> g in st.gateways)
            && (Left(st', g) == Left(st, g) || (a.Deliver? && Left(st', g) == Left(st, g) - 1))
  {
    match a {
      case Change(e) => EditFamily(s, e, g);
      case Deliver(t) => DeliverFamily(s, t, g);
      case _ => assert Do(s, a).store == s.store;
    }
  }

  // ---------------------------------------------------------------- bounds over any interleaving

  ghost predicate UndisturbedRun(s: State, run: seq<Action>, g: GatewayKey)
    requires Valid(s, run)
    decreases |run|
  {
    run == [] || (Undisturbed(s.store, run[0], g) && UndisturbedRun(Do(s, run[0]), run[1..], g))
  }

  /** Steps of a run that make the family smaller. */
  function Effective(s: State, run: seq<Action>, g: GatewayKey): nat
    requires Valid(s, run)
    decreases |run|
  {
    if run == [] then 0
    else (if Left(Do(s, run[0]).store, g) < Left(s.store, g) then 1 else 0) + Effective(Do(s, run[0]), run[1..], g)
  }

  /** However the passes interleave, each effective one removes exactly one object of the family:
      there are never more than (attached MCPs + 1) of them. */
  lemma {:induction false} EffectivePassesCount(s: State, run: seq<Action>, g: GatewayKey)
    requires Inv(s) && Family(s.store, g) && Valid(s, run) && UndisturbedRun(s, run, g)
    ensures Effective(s, run, g) + Left(Exec(s, run).store, g) == Left(s.store, g)
    ensures Effective(s, run, g) <= |AttachedSet(s.store, g)| + 1
    decreases |run|
  {
    if run != [] {
      FamilyStep(s, run[0], g);
      InvStep(s, run[0]);
      EffectivePassesCount(Do(s, run[0]), run[1..], g);
    }
  }


  // ---------------------------------------------------------------- the gateway goes last

  /** A gateway pass that cannot finalize `g`. */
  ghost predicate ThreadWaits(th: Thread, g: GatewayKey) {
    th.job.GatewayJob? && th.job.g == g ==>
      Drop(GATEWAY_FINALIZER) !in th.patch && (th.phase.Listing? ==> th.phase.snap.mcps != map[])
  }

  /** While MCPs are attached, the gateway carries its finalizer and nothing that could take it is under way. */
  ghost predicate GatewayWaits(s: State, g: GatewayKey) {
    AttachedSet(s.store, g) != {} ==>
      HoldsGateway(s.store, g) && forall t | t in s.threads :: ThreadWaits(s.threads[t], g)
  }

  /** A user's edit attaches `m` to `g`. */
  ghost predicate Attaches(st: Store, a: Action, m: McpId, g: GatewayKey) {
    && a.Change? && m.namespace == g.namespace && !Attached(Current(st), m, g)
    && match a.edit
       case CreateMcp(k, gw, _) => k == m && gw == g.name
       case EditMcp(k, gw, _) => k == m && gw == g.name
       case _ => false
  }

  /** No MCP becomes attached to `g`. */
  ghost predicate AttachesNone(st: Store, a: Action, g: GatewayKey) {
    forall m :: !Attaches(st, a, m, g)
  }

  ghost predicate AttachesNoneRun(s: State, run: seq<Action>, g: GatewayKey)
    requires Valid(s, run)
    decreases |run|
  {
    run == [] || (AttachesNone(s.store, run[0], g) && AttachesNoneRun(Do(s, run[0]), run[1..], g))
  }

  lemma {:induction false} EditAttaches(st: Store, e: Edit, m: McpId, g: GatewayKey)
    requires st.hist != [] && CanEdit(st, e) && Attached(Current(DoEdit(st, e)), m, g)
    ensures Attached(Current(st), m, g) || Attaches(st, Change(e), m, g)
  {
  }

  lemma {:induction false} PatchAttaches(st: Store, job: Job, patch: seq<Op>, m: McpId, g: GatewayKey)
    requires st.hist != [] && Attached(Current(DoPatch(st, job, patch)), m, g)
    ensures Attached(Current(st), m, g)
  {
  }

  /** Nothing but a user's edit attaches an MCP. */
  lemma {:induction false} AttachStep(s: State, a: Action, m: McpId, g: GatewayKey)
    requires s.store.hist != [] && Enabled(s, a) && Attached(Current(Do(s, a).store), m, g)
    ensures Attached(Current(s.store), m, g) || Attaches(s.store, a, m, g)
  {
    match a {
      case Change(e) => EditAttaches(s.store, e, m, g);
      case Deliver(t) => PatchAttaches(s.store, s.threads[t].job, s.threads[t].patch, m, g);
      case _ => assert Do(s, a).store == s.store;
    }
  }

  lemma {:induction false} AttachedShrinks(s: State, a: Action, g: GatewayKey)
    requires s.store.hist != [] && Enabled(s, a) && AttachesNone(s.store, a, g)
    ensures AttachedSet(Do(s, a).store, g) <= AttachedSet(s.store, g)
  {
    forall m | m in AttachedSet(Do(s, a).store, g) ensures m in AttachedSet(s.store, g) {
      AttachStep(s, a, m, g);
    }
  }

  lemma {:induction false} ListSeesAttached(st: Store, g: GatewayKey)
    ensures AttachedSet(st, g) != {} <==> ListFor(Current(st), g) != map[]
  {
    if AttachedSet(st, g) != {} {
      var m :| m in AttachedSet(st, g);
      assert m in ListFor(Current(st), g);
    }
    if ListFor(Current(st), g) != map[] {
      var m :| m in ListFor(Current(st), g);
      assert m in AttachedSet(st, g);
    }
  }

  lemma {:induction false} OutsideWaits(s: State, a: Action, g: GatewayKey)
    requires GatewayWaits(s, g) && AttachedSet(s.store, g) != {}
    requires Enabled(s, a) && (a.Change? || a.SpawnGateway? || a.SpawnMcp?)
    ensures GatewayWaits(Do(s, a), g)
  {
    var s' := Do(s, a);
    if a.Change? { EditKeepsGateway(s.store, a.edit, g); }
    forall u | u in s'.threads ensures ThreadWaits(s'.threads[u], g) {
      if u in s.threads { assert ThreadWaits(s.threads[u], g); }
    }
  }

  lemma {:induction false} DeliverWaits(s: State, t: Tid, g: GatewayKey)
    requires GatewayWaits(s, g) && AttachedSet(s.store, g) != {}
    requires Enabled(s, Deliver(t))
    ensures GatewayWaits(Do(s, Deliver(t)), g)
  {
    var s' := DeliverEffect(s, t);
    assert ThreadWaits(s.threads[t], g);
    if !HoldsGateway(s'.store, g) { GatewayLoser(s.store, s.threads[t], g); }
    forall u | u in s'.threads ensures ThreadWaits(s'.threads[u], g) {
      assert ThreadWaits(s.threads[u], g);
    }
  }

  lemma {:induction false} AdvanceWaits(st: Store, th: Thread, a: Action, g: GatewayKey)
    requires AttachedSet(st, g) != {} && ThreadWaits(th, g) && Ready(true, th, a)
    ensures ThreadWaits(Advance(st, th, a), g)
  {
    ListSeesAttached(st, g);
    if a.Decide? && th.job.GatewayJob? {
      DecideDrains(st, th, a);
    }
  }

  lemma {:induction false} HandlerWaits(s: State, a: Action, g: GatewayKey)
    requires GatewayWaits(s, g) && AttachedSet(s.store, g) != {}
    requires Enabled(s, a) && IsHandler(a)
    ensures GatewayWaits(Do(s, a), g)
  {
    var s', th' := HandlerEffect(s, a);
    AdvanceWaits(s.store, s.threads[a.t], a, g);
    forall u | u in s'.threads ensures ThreadWaits(s'.threads[u], g) {
      if u != a.t { assert ThreadWaits(s.threads[u], g); }
    }
  }

  lemma {:induction false} WaitsStep(s: State, a: Action, g: GatewayKey)
    requires s.store.hist != [] && GatewayWaits(s, g)
    requires Enabled(s, a) && AttachesNone(s.store, a, g)
    ensures GatewayWaits(Do(s, a), g)
  {
    AttachedShrinks(s, a, g);
    if AttachedSet(Do(s, a).store, g) != {} {
      if IsHandler(a) {
        HandlerWaits(s, a, g);
      } else if a.Deliver? {
        DeliverWaits(s, a.t, g);
      } else {
        OutsideWaits(s, a, g);
      }
    }
  }

  /** As long as nobody attaches an MCP, a gateway with attached MCPs, dying or not, keeps its finalizer until the
      last of them is gone, whatever foreign finalizers there are and however the passes interleave. */
  lemma {:induction false} GatewayGoesLast(s: State, run: seq<Action>, g: GatewayKey)
    requires s.store.hist != [] && GatewayWaits(s, g)
    requires Valid(s, run) && AttachesNoneRun(s, run, g)
    ensures !HoldsGateway(Exec(s, run).store, g) ==> AttachedSet(Exec(s, run).store, g) == {}
    decreases |run|
  {
    if run != [] {
      WaitsStep(s, run[0], g);
      StoreGrows(s, run[0]);
      GatewayGoesLast(Do(s, run[0]), run[1..], g);
    }
  }

  // ---------------------------------------------------------------- orphans

  /** `m` is attached throughout the run. */
  ghost predicate StaysAttached(s: State, run: seq<Action>, m: McpId, g: GatewayKey)
    requires Valid(s, run)
    decreases |run|
  {
    Attached(Current(s.store), m, g) && (run == [] || StaysAttached(Do(s, run[0]), run[1..], m, g))
  }

  /** Some edit of the run attaches `m`, and from then on `m` stays attached. */
  ghost predicate Arrives(s: State, run: seq<Action>, m: McpId, g: GatewayKey)
    requires Valid(s, run)
    decreases |run|
  {
    run != [] &&
    ((Attaches(s.store, run[0], m, g) && StaysAttached(Do(s, run[0]), run[1..], m, g))
     || Arrives(Do(s, run[0]), run[1..], m, g))
  }

  lemma {:induction false} AttachedAtEndIff(s: State, run: seq<Action>, m: McpId, g: GatewayKey)
    requires s.store.hist != [] && Valid(s, run)
    ensures Attached(Current(Exec(s, run).store), m, g) <==> StaysAttached(s, run, m, g) || Arrives(s, run, m, g)
    decreases |run|
  {
    if run != [] {
      StoreGrows(s, run[0]);
      AttachedAtEndIff(Do(s, run[0]), run[1..], m, g);
      if StaysAttached(Do(s, run[0]), run[1..], m, g) { AttachStep(s, run[0], m, g); }
    }
  }

  lemma {:induction false} NoEditNoArrival(s: State, run: seq<Action>, m: McpId, g: GatewayKey)
    requires Valid(s, run) && AttachesNoneRun(s, run, g)
    ensures !Arrives(s, run, m, g)
    decreases |run|
  {
    if run != [] {
      assert !Attaches(s.store, run[0], m, g);
      NoEditNoArrival(Do(s, run[0]), run[1..], m, g);
    }
  }

  predicate Undelivered(run: seq<Action>, t: Tid) {
    Deliver(t) !in run
  }

  /** A gateway pass that has its locked listing. */
  predicate HasListed(th: Thread) {
    th.job.GatewayJob? && (th.phase.Listing? || th.phase.Applying? || th.phase.Finished?)
  }

  lemma {:induction false} AdvanceListed(st: Store, th: Thread, a: Action)
    requires HasListed(th) && Ready(true, th, a)
    ensures HasListed(Advance(st, th, a)) && Advance(st, th, a).seen == th.seen && Advance(st, th, a).job == th.job
  {
  }

  lemma {:induction false} ListedStep(s: State, a: Action, t: Tid)
    requires Enabled(s, a) && a != Deliver(t) && t in s.threads && HasListed(s.threads[t])
    ensures t in Do(s, a).threads && HasListed(Do(s, a).threads[t])
    ensures Do(s, a).threads[t].seen == s.threads[t].seen && Do(s, a).threads[t].job == s.threads[t].job
  {
    if IsHandler(a) {
      var s', th' := HandlerEffect(s, a);
      if a.t == t { AdvanceListed(s.store, s.threads[t], a); }
    }
  }

  /** A pass keeps the listing it took until it is delivered. */
  lemma {:induction false} ListedRun(s: State, run: seq<Action>, t: Tid)
    requires Valid(s, run) && Undelivered(run, t) && t in s.threads && HasListed(s.threads[t])
    ensures t in Exec(s, run).threads
    ensures Exec(s, run).threads[t].seen == s.threads[t].seen && Exec(s, run).threads[t].job == s.threads[t].job
    decreases |run|
  {
    if run != [] {
      ListedStep(s, run[0], t);
      ListedRun(Do(s, run[0]), run[1..], t);
    }
  }

  lemma {:induction false} ListEffect(s: State, t: Tid)
    requires s.store.hist != [] && Enabled(s, List(t)) && s.threads[t].job.GatewayJob?
    ensures var s' := Do(s, List(t));
            && s'.store == s.store && t in s'.threads && HasListed(s'.threads[t])
            && s'.threads[t].seen == Listed(SnapNow(s.store, s.threads[t].job.spec, s.threads[t].job.g))
            && s'.threads[t].job == s.threads[t].job
  {
  }

  /** A pass lists, anything happens, and the delivery of the pass takes the gateway's finalizer. */
  ghost predicate TakesFinalizer(s: State, t: Tid, run: seq<Action>) {
    && Enabled(s, List(t)) && s.threads[t].job.GatewayJob?
    && Valid(Do(s, List(t)), run) && Undelivered(run, t)
    && var g, before := s.threads[t].job.g, Exec(Do(s, List(t)), run);
       Enabled(before, Deliver(t)) && HoldsGateway(before.store, g) && !HoldsGateway(Do(before, Deliver(t)).store, g)
  }

  lemma {:induction false} TakerKeepsListing(s: State, t: Tid, run: seq<Action>)
    requires Inv(s) && TakesFinalizer(s, t, run)
    ensures var before, job := Exec(Do(s, List(t)), run), s.threads[t].job;
            && Inv(before) && t in before.threads && before.threads[t].job == job && s.store.hist != []
            && before.threads[t].seen == Listed(SnapNow(s.store, job.spec, job.g))
  {
    assert InvLock(s);
    ListEffect(s, t);
    InvStep(s, List(t));
    InvRun(Do(s, List(t)), run);
    ListedRun(Do(s, List(t)), run, t);
  }

  /** Delivering a gateway pass leaves the catalog as it is. */
  lemma {:induction false} DeliverCatalog(s: State, t: Tid)
    requires Enabled(s, Deliver(t)) && s.threads[t].job.GatewayJob?
    ensures Current(Do(s, Deliver(t)).store) == Current(s.store)
  {
  }

  /** What such a pass listed was empty. */
  lemma {:induction false} TakerListedNone(s: State, t: Tid, run: seq<Action>)
    requires Inv(s) && TakesFinalizer(s, t, run)
    ensures s.store.hist != [] && ListFor(Current(s.store), s.threads[t].job.g) == map[]
  {
    TakerKeepsListing(s, t, run);
    GatewayLoses(Exec(Do(s, List(t)), run), Deliver(t), s.threads[t].job.g);
  }

  /** Exactly which MCPs the removal orphans: nothing was attached when the pass listed, and an MCP is left attached
      if and only if a user attached it between that listing and the delivery, and did not detach it again. */
  lemma {:induction false} OrphanedIff(callback: bool, s: State, t: Tid, run: seq<Action>, m: McpId)
    requires Reachable(callback, s) && TakesFinalizer(s, t, run)
    ensures var g, listed := s.threads[t].job.g, Do(s, List(t));
            && AttachedSet(s.store, g) == {}
            && (Attached(Current(Do(Exec(listed, run), Deliver(t)).store), m, g) <==> Arrives(listed, run, m, g))
  {
    var g, listed := s.threads[t].job.g, Do(s, List(t));
    ReachableInv(callback, s);
    TakerListedNone(s, t, run);
    ListSeesAttached(s.store, g);
    ListEffect(s, t);
    AttachedAtEndIff(listed, run, m, g);
    assert m !in AttachedSet(s.store, g);
    TakerKeepsListing(s, t, run);
    DeliverCatalog(Exec(listed, run), t);
  }

  /** So without an attaching edit between the listing and the delivery nothing is orphaned. */
  lemma {:induction false} NoLateMcpNoOrphan(callback: bool, s: State, t: Tid, run: seq<Action>)
    requires Reachable(callback, s) && TakesFinalizer(s, t, run)
    requires AttachesNoneRun(Do(s, List(t)), run, s.threads[t].job.g)
    ensures AttachedSet(Do(Exec(Do(s, List(t)), run), Deliver(t)).store, s.threads[t].job.g) == {}
  {
    var g, listed := s.threads[t].job.g, Do(s, List(t));
    var after := Do(Exec(listed, run), Deliver(t));
    forall m ensures m !in AttachedSet(after.store, g) {
      OrphanedIff(callback, s, t, run, m);
      NoEditNoArrival(listed, run, m, g);
    }
  }

  // ---------------------------------------------------------------- finishing

  /** A solo pass of a deleting MCP reads the gateway, unregisters and enters its decision. */
  lemma {:induction false} McpPassAsks(from: State, n: nat, s: State, g: GatewayKey, m: McpId) returns (s': State)
    requires Leads(from, s, n) && Quiescent(s) && Family(s.store, g) && m in AttachedSet(s.store, g)
    ensures Leads(from, s', n + 1) && s'.store == s.store && s'.lock == map[g := 0]
    ensures 0 in s'.threads && s'.threads == map[0 := s'.threads[0]]
    ensures var th := s'.threads[0];
            th.job == McpJob(m, g, true, [MCP_FINALIZER]) && th.phase.Asked? && th.phase.ok && th.patch == []
  {
    s' := GoMcp(from, n, s, 0, m);
    assert s'.threads[0] == Thread(McpJob(m, g, true, [MCP_FINALIZER]), Waiting, [], Nothing);
    s' := Go(from, n + 1, s', 0, Acquire(0));
    s' := Go(from, n + 1, s', 0, LookUp(0));
    s' := Go(from, n + 1, s', 0, Ask(0, true));
  }

  /** Its decision schedules the drop. */
  lemma {:induction false} McpDecision(st: Store, th: Thread)
    requires th.job.McpJob? && th.job.deleting && th.job.finalizers == [MCP_FINALIZER]
    requires th.phase.Asked? && th.phase.ok && th.patch == []
    ensures Advance(st, th, Decide(0)) == Thread(th.job, Touching, [Drop(MCP_FINALIZER)], th.seen)
  {
    assert Drops([MCP_FINALIZER]) == [Drop(MCP_FINALIZER)];
  }

  /** Delivering the drop removes the MCP. */
  lemma {:induction false} DropDelivered(st: Store, g: GatewayKey, m: McpId)
    requires Family(st, g) && st.hist != [] && m in AttachedSet(st, g)
    ensures var st' := DoPatch(st, McpJob(m, g, true, [MCP_FINALIZER]), [Drop(MCP_FINALIZER)]);
            st'.gateways == st.gateways && st'.hist != [] && Current(st') == Current(st) - {m}
  {
    DropOnly(MCP_FINALIZER);
    assert Current(st)[m].deleting && Current(st)[m].finalizers == [MCP_FINALIZER];
  }

  /** A solo pass of a deleting MCP whose unregister succeeds removes exactly that MCP. */
  lemma {:induction false} McpPass(from: State, n: nat, s: State, g: GatewayKey, m: McpId) returns (s': State)
    requires Leads(from, s, n) && Quiescent(s) && Family(s.store, g) && m in AttachedSet(s.store, g)
    ensures Leads(from, s', n + 1) && Quiescent(s')
    ensures s'.store.gateways == s.store.gateways && Current(s'.store) == Current(s.store) - {m}
  {
    s' := McpPassAsks(from, n, s, g, m);
    McpDecision(s'.store, s'.threads[0]);
    s' := Go(from, n + 1, s', 0, Decide(0));
    s' := Go(from, n + 1, s', 0, Leave(0));
    assert s'.lock == map[];
    DropDelivered(s.store, g, m);
    s' := GoDeliver(from, n + 1, s', 0);
    assert s'.threads == map[];
  }

  /** The schedule of a deleting gateway pass over its listing. */
  lemma {:induction false} GatewayDecision(st: Store, th: Thread, t: Tid)
    requires th.job.GatewayJob? && th.job.deleting && th.job.finalizers == [GATEWAY_FINALIZER]
    requires th.phase.Listing? && th.patch == []
    ensures Advance(st, th, Decide(t))
         == Thread(th.job, Finished, if th.phase.snap.mcps == map[] then [Drop(GATEWAY_FINALIZER)] else [], th.seen)
  {
    assert Drops([GATEWAY_FINALIZER]) == [Drop(GATEWAY_FINALIZER)];
  }

  /** A solo gateway pass finalizes the gateway when no MCP is attached, and otherwise changes nothing. */
  lemma {:induction false} GatewayPass(from: State, n: nat, s: State, g: GatewayKey) returns (s': State)
    requires Leads(from, s, n) && Quiescent(s) && Family(s.store, g) && g in s.store.gateways
    ensures Leads(from, s', n + 1) && Quiescent(s')
    ensures AttachedSet(s.store, g) != {} ==> s'.store == s.store
    ensures AttachedSet(s.store, g) == {} ==>
              s'.store.gateways == s.store.gateways - {g} && s'.store.hist == s.store.hist
  {
    s' := GoGateway(from, n, s, 0, g);
    s' := GatewayLists(from, n + 1, s', 0);
    GatewayDecision(s'.store, s'.threads[0], 0);
    if AttachedSet(s.store, g) != {} {
      ListSeesAttached(s.store, g);
    } else {
      assert forall m | m in Current(s.store) :: Attached(Current(s.store), m, g) ==> m in AttachedSet(s.store, g);
      assert ListFor(Current(s.store), g) == map[];
    }
    s' := Go(from, n + 1, s', 0, Decide(0));
    assert s'.lock == map[];
    DropOnly(GATEWAY_FINALIZER);
    s' := GoDeliver(from, n + 1, s', 0);
    assert s'.threads == map[];
  }

  /** Solo calls that end a deletion: a pass for each attached MCP, once, in any order; gateway passes at any time,
      the first one after the last MCP being the end. */
  ghost predicate Schedule(calls: seq<Option<McpId>>, left: set<McpId>)
    decreases |calls|
  {
    && calls != []
    && match calls[0]
       case None => if left == {} then calls == [None] else Schedule(calls[1..], left)
       case Some(m) => m in left && Schedule(calls[1..], left - {m})
  }

  /** From any quiescent moment of the deletion, every such schedule leaves nothing of the family, and nothing less
      than its last call takes the gateway. */
  lemma {:induction false} DeletionFinishes(from: State, n: nat, s: State, g: GatewayKey, calls: seq<Option<McpId>>)
    returns (last: State, s': State)
    requires Leads(from, s, n) && Quiescent(s) && Family(s.store, g) && g in s.store.gateways
    requires Schedule(calls, AttachedSet(s.store, g))
    ensures Leads(from, last, n + |calls| - 1) && g in last.store.gateways && AttachedSet(last.store, g) == {}
    ensures Leads(from, s', n + |calls|) && Quiescent(s') && Left(s'.store, g) == 0
    decreases |calls|
  {
    if calls == [None] && AttachedSet(s.store, g) == {} {
      last := s;
      s' := GatewayPass(from, n, s, g);
      assert AttachedSet(s'.store, g) == {};
    } else if calls[0].None? {
      s' := GatewayPass(from, n, s, g);
      last, s' := DeletionFinishes(from, n + 1, s', g, calls[1..]);
    } else {
      var m := calls[0].value;
      s' := McpPass(from, n, s, g, m);
      assert AttachedSet(s'.store, g) == AttachedSet(s.store, g) - {m};
      last, s' := DeletionFinishes(from, n + 1, s', g, calls[1..]);
    }
  }

  /** The shortest schedules have one call per attached MCP and one more, and there is one. */
  lemma {:induction false} ShortestSchedule(left: set<McpId>) returns (calls: seq<Option<McpId>>)
    ensures Schedule(calls, left) && |calls| == |left| + 1
    ensures forall other | Schedule(other, left) :: |left| + 1 <= |other|
    decreases |left|
  {
    if left == {} {
      calls := [None];
    } else {
      var m :| m in left;
      var rest := ShortestSchedule(left - {m});
      calls := [Some(m)] + rest;
      assert calls[1..] == rest;
    }
    forall other | Schedule(other, left) ensures |left| + 1 <= |other| {
      ScheduleLength(other, left);
    }
  }

  lemma {:induction false} ScheduleLength(calls: seq<Option<McpId>>, left: set<McpId>)
    requires Schedule(calls, left)
    ensures |left| + 1 <= |calls|
    decreases |calls|
  {
    if calls[0].Some? {
      ScheduleLength(calls[1..], left - {calls[0].value});
    } else if left != {} {
      ScheduleLength(calls[1..], left);
    }
  }
}
