/** The theorems about every run of the reconcile protocol. */
module ProtocolRuns {
  import opened Common
  import opened Finalizers
  import opened Protocol
  import opened ProtocolSafety
  import opened ProtocolFinalizers

  // ---------------------------------------------------------------- spec revisions

  predicate HasSpec(p: Phase) {
    (p.Looked? && p.gw.Some?) || (p.Asked? && p.gw.Some?) || p.OwnApplied? || HasSnap(p)
  }

  function SpecOf(p: Phase): GwSpec
    requires HasSpec(p)
  {
    match p
    case Looked(gw) => gw.value
    case Asked(gw, _) => gw.value
    case OwnApplied(spec) => spec
    case Listing(snap) => snap.spec
    case Applying(snap, _) => snap.spec
  }

  ghost predicate RevsUpTo(log: seq<Applied>, rev: nat) {
    forall i | 0 <= i < |log| :: log[i].snap.spec.rev <= rev
  }

  /** An apply on the MCP path never goes back behind an earlier apply's gateway spec. */
  ghost predicate McpPathFresh(log: seq<Applied>) {
    forall i, j | 0 <= i < j < |log| && log[j].byMcp :: log[i].snap.spec.rev <= log[j].snap.spec.rev
  }

  /** A spec that was written for the gateway; its revision says which. */
  predicate Known(st: Store, g: GatewayKey, spec: GwSpec) {
    1 <= spec.rev <= Rev(st, g) && SpecsOf(st, g)[spec.rev - 1] == spec
  }

  ghost predicate RevThread(st: Store, r: Record, th: Thread) {
    && (th.job.GatewayJob? ==> Known(st, th.job.g, th.job.spec))
    && (HasSpec(th.phase) ==>
          && Known(st, th.job.g, SpecOf(th.phase))
          && (th.job.McpJob? ==> RevsUpTo(LogOf(r, th.job.g), SpecOf(th.phase).rev))
          && (th.job.GatewayJob? && HasSnap(th.phase) ==> th.phase.snap.spec == th.job.spec))
  }

  ghost predicate RevGateway(st: Store, r: Record, g: GatewayKey) {
    && (g in st.gateways ==> st.gateways[g].spec.rev == Rev(st, g) && Known(st, g, st.gateways[g].spec))
    && (forall i | 0 <= i < |LogOf(r, g)| :: Known(st, g, LogOf(r, g)[i].snap.spec))
    && McpPathFresh(LogOf(r, g))
  }

  ghost predicate InvRev(s: State) {
    && (forall g :: RevGateway(s.store, s.rec, g))
    && (forall t | t in s.threads :: RevThread(s.store, s.rec, s.threads[t]))
  }

  /** One gateway's record while the store moves on. */
  lemma {:induction false} RevOneGateway(st: Store, r: Record, e: Edit, g: GatewayKey)
    requires CanEdit(st, e) && RevGateway(st, r, g)
    ensures RevGateway(DoEdit(st, e), r, g) && SpecsOf(st, g) <= SpecsOf(DoEdit(st, e), g)
  {
  }

  lemma {:induction false} RevOnePatch(st: Store, r: Record, th: Thread, g: GatewayKey)
    requires RevGateway(st, r, g)
    ensures RevGateway(DoPatch(st, th.job, th.patch), r, g)
    ensures SpecsOf(DoPatch(st, th.job, th.patch), g) == SpecsOf(st, g)
  {
  }

  lemma {:induction false} RevOneThread(st: Store, st': Store, r: Record, th: Thread)
    requires RevThread(st, r, th) && SpecsOf(st, th.job.g) <= SpecsOf(st', th.job.g)
    ensures RevThread(st', r, th)
  {
  }

  lemma {:induction false} RevEdit(s: State, e: Edit)
    requires InvRev(s) && Enabled(s, Change(e))
    ensures InvRev(Do(s, Change(e)))
  {
    var s' := Do(s, Change(e));
    forall g ensures RevGateway(s'.store, s'.rec, g) && SpecsOf(s.store, g) <= SpecsOf(s'.store, g) {
      assert RevGateway(s.store, s.rec, g);
      RevOneGateway(s.store, s.rec, e, g);
    }
    forall t | t in s'.threads ensures RevThread(s'.store, s'.rec, s'.threads[t]) {
      RevOneThread(s.store, s'.store, s.rec, s.threads[t]);
    }
  }

  lemma {:induction false} RevDeliver(s: State, t: Tid)
    requires InvRev(s) && Enabled(s, Deliver(t))
    ensures InvRev(Do(s, Deliver(t)))
  {
    var s' := DeliverEffect(s, t);
    forall g ensures RevGateway(s'.store, s'.rec, g) && SpecsOf(s'.store, g) == SpecsOf(s.store, g) {
      assert RevGateway(s.store, s.rec, g);
      RevOnePatch(s.store, s.rec, s.threads[t], g);
    }
    forall u | u in s'.threads ensures RevThread(s'.store, s'.rec, s'.threads[u]) {
      RevOneThread(s.store, s'.store, s.rec, s.threads[u]);
    }
  }

  lemma {:induction false} RevSpawn(s: State, a: Action)
    requires InvRev(s) && Enabled(s, a) && (a.SpawnGateway? || a.SpawnMcp?)
    ensures InvRev(Do(s, a))
  {
    var s' := Do(s, a);
    if a.SpawnGateway? { assert RevGateway(s.store, s.rec, a.g); }
    forall u | u in s'.threads ensures RevThread(s'.store, s'.rec, s'.threads[u]) {
      if u in s.threads { assert RevThread(s.store, s.rec, s.threads[u]); }
    }
  }

  lemma {:induction false} RevRecord(st: Store, r: Record, g: GatewayKey, e: Applied, h: GatewayKey)
    requires RevGateway(st, r, g) && RevGateway(st, r, h) && Known(st, g, e.snap.spec)
    requires e.byMcp ==> RevsUpTo(LogOf(r, g), e.snap.spec.rev)
    ensures RevGateway(st, ApplyTo(r, g, e), h)
  {
    var r' := ApplyTo(r, g, e);
    if h == g {
      assert LogOf(r', g) == LogOf(r, g) + [e];
    } else {
      assert LogOf(r', h) == LogOf(r, h);
    }
  }

  lemma {:induction false} RevOther(st: Store, r: Record, g: GatewayKey, e: Applied, th: Thread)
    requires RevThread(st, r, th) && (HasSpec(th.phase) ==> th.job.g != g)
    ensures RevThread(st, ApplyTo(r, g, e), th)
  {
    assert th.job.g != g ==> LogOf(ApplyTo(r, g, e), th.job.g) == LogOf(r, th.job.g);
  }

  lemma {:induction false} RevSelf(st: Store, r: Record, th: Thread)
    requires RevThread(st, r, th) && th.phase.Applying? && th.phase.next < Count(th.phase.snap.spec)
    ensures RevThread(st, ApplyTo(r, th.job.g, NextEntry(th)), th.(phase := Applying(th.phase.snap, th.phase.next + 1)))
  {
    var r' := ApplyTo(r, th.job.g, NextEntry(th));
    assert LogOf(r', th.job.g) == LogOf(r, th.job.g) + [NextEntry(th)];
  }

  lemma {:induction false} RevApply(s: State, t: Tid)
    requires InvLock(s) && InvRev(s) && Enabled(s, ApplyOne(t))
    ensures InvRev(Do(s, ApplyOne(t)))
  {
    var s' := ApplyOneEffect(s, t);
    var th := s.threads[t];
    assert RevThread(s.store, s.rec, th);
    forall h ensures RevGateway(s'.store, s'.rec, h) {
      assert RevGateway(s.store, s.rec, h) && RevGateway(s.store, s.rec, th.job.g);
      RevRecord(s.store, s.rec, th.job.g, NextEntry(th), h);
    }
    forall u | u in s'.threads ensures RevThread(s'.store, s'.rec, s'.threads[u]) {
      if u == t {
        RevSelf(s.store, s.rec, th);
      } else {
        assert RevThread(s.store, s.rec, s.threads[u]);
        if HasSpec(s.threads[u].phase) { OthersElsewhere(s, t, u); }
        RevOther(s.store, s.rec, th.job.g, NextEntry(th), s.threads[u]);
      }
    }
  }

  lemma {:induction false} AdvanceRev(st: Store, r: Record, th: Thread, a: Action)
    requires Ready(true, th, a) && !a.ApplyOne? && RevThread(st, r, th) && RevGateway(st, r, th.job.g)
    ensures RevThread(st, r, Advance(st, th, a)) && RecordAfter(r, th, a).log == r.log
  {
  }

  lemma {:induction false} RevFrame(s: State, s': State, t: Tid, th': Thread)
    requires InvRev(s) && t in s.threads
    requires s'.store == s.store && s'.threads == s.threads[t := th'] && s'.rec.log == s.rec.log
    requires RevThread(s.store, s.rec, th')
    ensures InvRev(s')
  {
    forall h ensures RevGateway(s'.store, s'.rec, h) {
      assert RevGateway(s.store, s.rec, h);
      assert LogOf(s'.rec, h) == LogOf(s.rec, h);
    }
    forall u | u in s'.threads ensures RevThread(s'.store, s'.rec, s'.threads[u]) {
      assert RevThread(s.store, s.rec, s'.threads[u]);
      assert LogOf(s'.rec, s'.threads[u].job.g) == LogOf(s.rec, s'.threads[u].job.g);
    }
  }

  lemma {:induction false} RevQuiet(s: State, a: Action)
    requires InvLock(s) && InvRev(s) && Enabled(s, a) && IsHandler(a) && !a.ApplyOne?
    ensures InvRev(Do(s, a))
  {
    var s', th' := HandlerEffect(s, a);
    assert RevThread(s.store, s.rec, s.threads[a.t]);
    assert RevGateway(s.store, s.rec, s.threads[a.t].job.g);
    AdvanceRev(s.store, s.rec, s.threads[a.t], a);
    RevFrame(s, s', a.t, th');
  }

  lemma {:induction false} RevStep(s: State, a: Action)
    requires InvLock(s) && InvRev(s) && Enabled(s, a)
    ensures InvRev(Do(s, a))
  {
    match a {
      case Change(e) => RevEdit(s, e);
      case Deliver(t) => RevDeliver(s, t);
      case SpawnGateway(t, g) => RevSpawn(s, a);
      case SpawnMcp(t, m) => RevSpawn(s, a);
      case ApplyOne(t) => RevApply(s, t);
      case _ => RevQuiet(s, a);
    }
  }

  // ---------------------------------------------------------------- patches

  /** A pass only ever schedules its own finalizer, and always one homogeneous list. */
  ghost predicate PatchOk(th: Thread) {
    var own := if th.job.GatewayJob? then GATEWAY_FINALIZER else MCP_FINALIZER;
    && (th.patch == [] || th.patch == [Ensure(own)] || th.patch == [Drop(own)])
    && (InSection(th.phase) && !th.phase.Touching? ==> th.patch == [])
    && (th.phase.Waiting? ==> th.patch == [])
  }

  ghost predicate InvPatch(s: State) {
    forall t | t in s.threads :: PatchOk(s.threads[t])
  }

  lemma {:induction false} PatchStep(s: State, a: Action)
    requires InvPatch(s) && Enabled(s, a)
    ensures InvPatch(Do(s, a))
  {
    if IsHandler(a) {
      var th := s.threads[a.t];
      assert PatchOk(th);
      assert Ensures([GATEWAY_FINALIZER]) == [Ensure(GATEWAY_FINALIZER)];
      assert Ensures([MCP_FINALIZER]) == [Ensure(MCP_FINALIZER)];
      assert Drops([GATEWAY_FINALIZER]) == [Drop(GATEWAY_FINALIZER)];
      assert Drops([MCP_FINALIZER]) == [Drop(MCP_FINALIZER)];
      assert PatchOk(Advance(s.store, th, a));
    }
  }

  // ---------------------------------------------------------------- all runs

  ghost predicate Inv(s: State) {
    InvLock(s) && InvSnap(s) && InvObjects(s) && InvGateway(s) && InvMcp(s) && InvRev(s) && InvPatch(s)
  }

  lemma {:induction false} InvStep(s: State, a: Action)
    requires Inv(s) && Enabled(s, a)
    ensures Inv(Do(s, a))
  {
    LockStep(s, a);
    SnapStep(s, a);
    ObjectsStep(s, a);
    GatewayStep(s, a);
    McpStep(s, a);
    RevStep(s, a);
    PatchStep(s, a);
  }

  lemma {:induction false} InvRun(s: State, run: seq<Action>)
    requires Inv(s) && Valid(s, run)
    ensures Inv(Exec(s, run))
    decreases |run|
  {
    if run != [] {
      InvStep(s, run[0]);
      InvRun(Do(s, run[0]), run[1..]);
    }
  }

  /** How many times Kopf called a handler. */
  function Calls(run: seq<Action>): nat {
    if run == [] then 0 else (if run[0].SpawnGateway? || run[0].SpawnMcp? then 1 else 0) + Calls(run[1..])
  }

  /** Some run with `n` handler calls leads from `s0` to `s`. */
  ghost predicate Leads(s0: State, s: State, n: nat) {
    exists run :: Valid(s0, run) && Exec(s0, run) == s && Calls(run) == n
  }

  ghost predicate Reachable(callback: bool, s: State) {
    exists n: nat :: Leads(Init(callback), s, n)
  }

  lemma {:induction false} ReachableInv(callback: bool, s: State)
    requires Reachable(callback, s)
    ensures Inv(s)
  {
    var n: nat :| Leads(Init(callback), s, n);
    var run :| Valid(Init(callback), run) && Exec(Init(callback), run) == s && Calls(run) == n;
    InvRun(Init(callback), run);
  }

  /** Two handlers are never inside the critical section of one gateway. */
  lemma {:induction false} OneSectionPerGateway(callback: bool, s: State, t: Tid, u: Tid)
    requires Reachable(callback, s)
    requires t in s.threads && u in s.threads && s.threads[t].job.g == s.threads[u].job.g
    requires InSection(s.threads[t].phase) && InSection(s.threads[u].phase)
    ensures t == u
  {
    ReachableInv(callback, s);
  }

  /** Stale lists never win: for one gateway, whatever the interleaving, every apply comes from a
      listing at least as new as the one behind every earlier apply, and each listing is the
      catalog of its moment. */
  lemma {:induction false} StaleListsNeverWin(callback: bool, s: State, g: GatewayKey, i: nat, j: nat)
    requires Reachable(callback, s)
    requires i < j < |LogOf(s.rec, g)|
    ensures var log := LogOf(s.rec, g);
            && log[i].snap.version <= log[j].snap.version < |s.store.hist|
            && log[j].snap.mcps == ListFor(s.store.hist[log[j].snap.version], g)
  {
    ReachableInv(callback, s);
    assert RecordOk(s.store.hist, s.rec, g);
    assert SnapOk(s.store.hist, g, LogOf(s.rec, g)[j].snap);
  }

  /** The slots a spec gives. */
  predicate Gives(spec: GwSpec, k: Slot) {
    !k.Other? || k in spec.extras
  }

  /** Where a spec gives a slot, extras first. */
  lemma {:induction false} GivenAt(spec: GwSpec, k: Slot) returns (p: nat)
    requires Gives(spec, k)
    ensures p < Count(spec) && ManifestAt(spec, p).slot == k && (p >= 4 <==> k in spec.extras)
  {
    if k in spec.extras {
      var j :| 0 <= j < |spec.extras| && spec.extras[j] == k;
      p := j + 4;
    } else {
      p := if k.Pvc? then 0 else if k.ConfigMap? then 1 else if k.Service? then 2 else 3;
    }
  }

  lemma {:induction false} RenderedIsGiven(spec: GwSpec, item: Manifest)
    requires Renders(spec, item)
    ensures Gives(spec, item.slot) && (item.shows ==> item.slot == ConfigMap || item.slot == Deployment)
  {
    var i: nat :| i < Count(spec) && ManifestAt(spec, i) == item;
    if i >= 4 { assert spec.extras[i - 4] in spec.extras; }
  }

  lemma {:induction false} LastIndex(log: seq<Applied>, k: Slot) returns (i: nat)
    requires LastFor(log, k).Some?
    ensures LastAt(log, k, i) && LastFor(log, k).value == log[i]
  {
    i :| LastAt(log, k, i) && log[i] == LastFor(log, k).value;
  }

  lemma {:induction false} EndsAt(log: seq<Applied>, snap: Snapshot, n: nat, q: nat)
    requires EndsWith(log, snap, n) && q < n
    ensures log[|log| - n + q].snap == snap && log[|log| - n + q].item == ManifestAt(snap.spec, q)
  {
    assert |log| - n + q - (|log| - n) == q;
  }

  /** A whole pass at the end of the log: the last apply to a slot it gives is its own. */
  lemma {:induction false} LastOfPass(log: seq<Applied>, snap: Snapshot, k: Slot, p: nat, i: nat)
    requires EndsWith(log, snap, Count(snap.spec)) && p < Count(snap.spec) && ManifestAt(snap.spec, p).slot == k
    requires LastAt(log, k, i)
    ensures |log| - Count(snap.spec) + p <= i
    ensures log[i].snap == snap && log[i].item == ManifestAt(snap.spec, i - (|log| - Count(snap.spec)))
  {
    EndsAt(log, snap, Count(snap.spec), p);
    EndsAt(log, snap, Count(snap.spec), i - (|log| - Count(snap.spec)));
  }

  lemma {:induction false} PassPuts(log: seq<Applied>, snap: Snapshot, k: Slot)
    requires EndsWith(log, snap, Count(snap.spec)) && Gives(snap.spec, k)
    ensures LastFor(log, k).Some? && LastFor(log, k).value.snap == snap
    ensures LastFor(log, k).value.item.shows <==> (k == ConfigMap || k == Deployment) && k !in snap.spec.extras
  {
    var p := GivenAt(snap.spec, k);
    EndsAt(log, snap, Count(snap.spec), p);
    var i := LastIndex(log, k);
    LastOfPass(log, snap, k, p, i);
    ShowsIff(snap.spec, k, p, i - (|log| - Count(snap.spec)));
  }

  lemma {:induction false} ShowsIff(spec: GwSpec, k: Slot, p: nat, q: nat)
    requires p <= q < Count(spec) && (p >= 4 <==> k in spec.extras)
    requires ManifestAt(spec, q).slot == k
    ensures ManifestAt(spec, q).shows <==> (k == ConfigMap || k == Deployment) && k !in spec.extras
  {
    if q >= 4 { assert spec.extras[q - 4] == k; }
  }

  /** An object of a slot that the settled spec gives is what the settled pass put there last. */
  lemma {:induction false} SettledPuts(s: State, g: GatewayKey, k: Slot)
    requires Inv(s) && g in s.rec.settled && Gives(s.rec.settled[g].spec, k)
    ensures (g, k) in s.rec.objects && s.rec.objects[(g, k)].snap == s.rec.settled[g]
    ensures s.rec.objects[(g, k)].item.shows <==>
            (k == ConfigMap || k == Deployment) && k !in s.rec.settled[g].spec.extras
  {
    assert RecordOk(s.store.hist, s.rec, g);
    PassPuts(LogOf(s.rec, g), s.rec.settled[g], k);
    assert ObjectAt(s.rec, g, k) == LastFor(LogOf(s.rec, g), k);
  }

  /** An object in the cluster was applied for a spec that gives its slot; whatever shows a listing is at one of
      two slots. */
  lemma {:induction false} ObjectGiven(s: State, g: GatewayKey, k: Slot)
    requires Inv(s) && (g, k) in s.rec.objects
    ensures var e := s.rec.objects[(g, k)];
            && Gives(e.snap.spec, k) && Known(s.store, g, e.snap.spec)
            && (e.item.shows ==> k == ConfigMap || k == Deployment)
  {
    var log := LogOf(s.rec, g);
    assert ObjectAt(s.rec, g, k) == LastFor(log, k);
    var i := LastIndex(log, k);
    assert RecordOk(s.store.hist, s.rec, g) && EntryOk(log, i) && RevGateway(s.store, s.rec, g);
    RenderedIsGiven(log[i].snap.spec, log[i].item);
  }

  /** Once the last completed section's listing is still what the catalog says, every object rendered from a listing
      is rendered from the present catalog, whatever specs and passes came before; these are the ConfigMap and the
      Deployment, except one that the settled spec itself replaces by an attachment. Every object that the settled
      spec gives is the one this section put there. */
  lemma {:induction false} CurrentListMeansCurrentObjects(callback: bool, s: State, g: GatewayKey, k: Slot)
    requires Reachable(callback, s)
    requires g in s.rec.settled && s.rec.settled[g].mcps == ListFor(Current(s.store), g)
    ensures (g, k) in s.rec.objects && s.rec.objects[(g, k)].item.shows ==>
              s.rec.objects[(g, k)].snap.mcps == ListFor(Current(s.store), g)
    ensures k == ConfigMap || k == Deployment ==>
              (g, k) in s.rec.objects && (s.rec.objects[(g, k)].item.shows <==> k !in s.rec.settled[g].spec.extras)
    ensures Gives(s.rec.settled[g].spec, k) ==>
              (g, k) in s.rec.objects && s.rec.objects[(g, k)].snap == s.rec.settled[g]
  {
    ReachableInv(callback, s);
    if (g, k) in s.rec.objects { ObjectGiven(s, g, k); }
    if Gives(s.rec.settled[g].spec, k) { SettledPuts(s, g, k); }
  }

  lemma {:induction false} LaterIsNewer(log: seq<Applied>, i: nat, c: nat)
    requires LogSorted(log) && i < |log| && EntryOk(log, i) && log[i].item.slot == Deployment
    requires LastAt(log, ConfigMap, c)
    ensures log[i].snap.version <= log[c].snap.version
  {
    var j :| 0 <= j < i && log[j].item.slot == ConfigMap && log[j].snap == log[i].snap;
    assert j <= c;
  }

  /** In no reachable state is the Deployment rendered from a newer listing than the ConfigMap it mounts. */
  lemma {:induction false} DeploymentNeverAhead(callback: bool, s: State, g: GatewayKey)
    requires Reachable(callback, s) && (g, Deployment) in s.rec.objects
    ensures (g, ConfigMap) in s.rec.objects
    ensures s.rec.objects[(g, Deployment)].snap.version <= s.rec.objects[(g, ConfigMap)].snap.version
  {
    ReachableInv(callback, s);
    var log := LogOf(s.rec, g);
    assert RecordOk(s.store.hist, s.rec, g);
    assert ObjectAt(s.rec, g, Deployment) == LastFor(log, Deployment);
    var i := LastIndex(log, Deployment);
    assert EntryOk(log, i);
    assert ObjectAt(s.rec, g, ConfigMap) == LastFor(log, ConfigMap);
    var c := LastIndex(log, ConfigMap);
    LaterIsNewer(log, i, c);
  }

  /** An object of another spec revision than the one settled last: nothing deletes it. */
  predicate Leftover(s: State, g: GatewayKey, k: Slot) {
    g in s.rec.settled && (g, k) in s.rec.objects && s.rec.objects[(g, k)].snap.spec.rev != s.rec.settled[g].spec.rev
  }

  lemma {:induction false} SettledKnown(s: State, g: GatewayKey)
    requires Inv(s) && g in s.rec.settled
    ensures LogOf(s.rec, g) != [] && LogOf(s.rec, g)[|LogOf(s.rec, g)| - 1].snap == s.rec.settled[g]
    ensures Known(s.store, g, s.rec.settled[g].spec)
  {
    var log := LogOf(s.rec, g);
    assert RecordOk(s.store.hist, s.rec, g) && RevGateway(s.store, s.rec, g);
    assert EndsWith(log, s.rec.settled[g], Count(s.rec.settled[g].spec));
    assert log[|log| - 1].snap == s.rec.settled[g];
  }

  predicate EverApplied(log: seq<Applied>, k: Slot) {
    exists i :: 0 <= i < |log| && log[i].item.slot == k
  }

  /** Exactly which objects remain of another revision: those once applied at a slot that the settled spec does
      not give. */
  lemma {:induction false} LeftoverIff(callback: bool, s: State, g: GatewayKey, k: Slot)
    requires Reachable(callback, s) && g in s.rec.settled
    ensures Leftover(s, g, k)
       <==> !Gives(s.rec.settled[g].spec, k) && EverApplied(LogOf(s.rec, g), k)
  {
    ReachableInv(callback, s);
    assert (g, k) in s.rec.objects <==> EverApplied(LogOf(s.rec, g), k) by {
      assert ObjectAt(s.rec, g, k) == LastFor(LogOf(s.rec, g), k);
    }
    if Gives(s.rec.settled[g].spec, k) {
      SettledPuts(s, g, k);
    } else if (g, k) in s.rec.objects {
      ObjectGiven(s, g, k);
      SettledKnown(s, g);
    }
  }

  /** The last apply for the gateway was made by an MCP pass. */
  predicate LastByMcp(s: State, g: GatewayKey) {
    LogOf(s.rec, g) != [] && LogOf(s.rec, g)[|LogOf(s.rec, g)| - 1].byMcp
  }

  /** A leftover is of an older revision when the newest spec is settled, or when an MCP pass settled it. */
  lemma {:induction false} LeftoverIsOlder(callback: bool, s: State, g: GatewayKey, k: Slot)
    requires Reachable(callback, s) && Leftover(s, g, k)
    requires s.rec.settled[g].spec.rev == Rev(s.store, g) || LastByMcp(s, g)
    ensures s.rec.objects[(g, k)].snap.spec.rev < s.rec.settled[g].spec.rev
  {
    ReachableInv(callback, s);
    var log := LogOf(s.rec, g);
    SettledKnown(s, g);
    ObjectGiven(s, g, k);
    assert RevGateway(s.store, s.rec, g);
    assert ObjectAt(s.rec, g, k) == LastFor(log, k);
    var i := LastIndex(log, k);
  }

  /** Applies made on the MCP path read the gateway inside the lock, so they never fall behind an
      earlier apply; a spec can only go back on a gateway pass, whose event predates its lock. */
  lemma {:induction false} SpecGoesBackOnlyOnGatewayPass(callback: bool, s: State, g: GatewayKey, i: nat, j: nat)
    requires Reachable(callback, s)
    requires i < j < |LogOf(s.rec, g)|
    requires LogOf(s.rec, g)[j].snap.spec.rev < LogOf(s.rec, g)[i].snap.spec.rev
    ensures !LogOf(s.rec, g)[j].byMcp
  {
    ReachableInv(callback, s);
    assert RevGateway(s.store, s.rec, g);
  }

  /** A newer revision than `rev` was already applied for `g`. */
  ghost predicate NewerApplied(s: State, g: GatewayKey, rev: nat) {
    !RevsUpTo(LogOf(s.rec, g), rev)
  }

  /** The thread stays inside its section over the whole run. */
  ghost predicate StaysInside(s: State, run: seq<Action>, t: Tid)
    requires Valid(s, run)
    decreases |run|
  {
    && t in s.threads && InSection(s.threads[t].phase)
    && (run == [] || StaysInside(Do(s, run[0]), run[1..], t))
  }

  lemma {:induction false} RevsSnoc(log: seq<Applied>, e: Applied, rev: nat)
    requires e.snap.spec.rev <= rev
    ensures RevsUpTo(log + [e], rev) <==> RevsUpTo(log, rev)
  {
    assert forall i | 0 <= i < |log| :: (log + [e])[i] == log[i];
  }

  lemma {:induction false} SectionApply(s: State, u: Tid, t: Tid, rev: nat)
    requires Inv(s) && Enabled(s, ApplyOne(u)) && t in s.threads && InSection(s.threads[t].phase)
    requires s.threads[t].job.GatewayJob? && s.threads[t].job.spec.rev <= rev
    ensures NewerApplied(Do(s, ApplyOne(u)), s.threads[t].job.g, rev) <==> NewerApplied(s, s.threads[t].job.g, rev)
  {
    var s' := ApplyOneEffect(s, u);
    var th := s.threads[t];
    var g := th.job.g;
    if u == t {
      assert RevThread(s.store, s.rec, th);
      var e := NextEntry(th);
      assert LogOf(s'.rec, g) == LogOf(s.rec, g) + [e];
      RevsSnoc(LogOf(s.rec, g), e, rev);
    } else {
      OthersElsewhere(s, t, u);
      assert LogOf(s'.rec, g) == LogOf(s.rec, g);
    }
  }

  lemma {:induction false} JobStays(s: State, a: Action, t: Tid)
    requires Enabled(s, a) && t in s.threads && t in Do(s, a).threads
    ensures Do(s, a).threads[t].job == s.threads[t].job
  {
    if IsHandler(a) { var s', th' := HandlerEffect(s, a); }
  }

  /** Inside a gateway pass's section, one step adds nothing to the log or an apply of the pass's own spec. */
  lemma {:induction false} SectionStep(s: State, a: Action, t: Tid, rev: nat)
    requires Inv(s) && Enabled(s, a) && t in s.threads && InSection(s.threads[t].phase)
    requires s.threads[t].job.GatewayJob? && s.threads[t].job.spec.rev <= rev
    ensures NewerApplied(Do(s, a), s.threads[t].job.g, rev) <==> NewerApplied(s, s.threads[t].job.g, rev)
  {
    if a.ApplyOne? {
      SectionApply(s, a.t, t, rev);
    } else {
      QuietRecord(s, a);
      assert LogOf(Do(s, a).rec, s.threads[t].job.g) == LogOf(s.rec, s.threads[t].job.g);
    }
  }

  lemma {:induction false} SectionLog(s: State, run: seq<Action>, t: Tid, rev: nat)
    requires Inv(s) && Valid(s, run) && StaysInside(s, run, t) && s.threads[t].job.GatewayJob?
    requires s.threads[t].job.spec.rev <= rev
    ensures t in Exec(s, run).threads && Exec(s, run).threads[t].job == s.threads[t].job && Inv(Exec(s, run))
    ensures NewerApplied(Exec(s, run), s.threads[t].job.g, rev) <==> NewerApplied(s, s.threads[t].job.g, rev)
    decreases |run|
  {
    if run != [] {
      assert StaysInside(Do(s, run[0]), run[1..], t);
      SectionStep(s, run[0], t, rev);
      JobStays(s, run[0], t);
      InvStep(s, run[0]);
      SectionLog(Do(s, run[0]), run[1..], t, rev);
    }
  }

  lemma {:induction false} AcquireEffect(s: State, t: Tid)
    requires Enabled(s, Acquire(t))
    ensures var s' := Do(s, Acquire(t));
            && s'.rec == s.rec && t in s'.threads && s'.threads[t].job == s.threads[t].job
            && InSection(s'.threads[t].phase)
  {
  }

  /** Exactly which gateway passes put an older spec back, known when the lock is taken: each of the pass's
      applies goes behind an earlier one if and only if a newer revision than its event's was applied before
      the pass got its lock. */
  lemma {:induction false} PassStepsBackIff(callback: bool, s: State, t: Tid, run: seq<Action>)
    requires Reachable(callback, s) && Enabled(s, Acquire(t)) && s.threads[t].job.GatewayJob?
    requires Valid(Do(s, Acquire(t)), run) && StaysInside(Do(s, Acquire(t)), run, t)
    requires Enabled(Exec(Do(s, Acquire(t)), run), ApplyOne(t))
    ensures var before := Exec(Do(s, Acquire(t)), run);
            var th := before.threads[t];
            && th.job == s.threads[t].job && th.phase.snap.spec == th.job.spec
            && (NewerApplied(before, th.job.g, th.phase.snap.spec.rev)
                <==> NewerApplied(s, th.job.g, th.job.spec.rev))
  {
    ReachableInv(callback, s);
    InvStep(s, Acquire(t));
    AcquireEffect(s, t);
    var s1 := Do(s, Acquire(t));
    SectionLog(s1, run, t, s.threads[t].job.spec.rev);
    var before := Exec(s1, run);
    assert RevThread(before.store, before.rec, before.threads[t]);
    assert LogOf(s1.rec, s.threads[t].job.g) == LogOf(s.rec, s.threads[t].job.g);
  }

  /** A pass whose event is still the newest spec when it takes the lock never steps back. */
  lemma {:induction false} FreshPassNeverStepsBack(callback: bool, s: State, t: Tid, run: seq<Action>)
    requires Reachable(callback, s) && Enabled(s, Acquire(t)) && s.threads[t].job.GatewayJob?
    requires s.threads[t].job.spec.rev == Rev(s.store, s.threads[t].job.g)
    requires Valid(Do(s, Acquire(t)), run) && StaysInside(Do(s, Acquire(t)), run, t)
    requires Enabled(Exec(Do(s, Acquire(t)), run), ApplyOne(t))
    ensures var before := Exec(Do(s, Acquire(t)), run);
            RevsUpTo(LogOf(before.rec, before.threads[t].job.g), before.threads[t].phase.snap.spec.rev)
  {
    PassStepsBackIff(callback, s, t, run);
    ReachableInv(callback, s);
    assert RevGateway(s.store, s.rec, s.threads[t].job.g);
  }

  /** Whatever the interleaving, a pass that schedules the gateway drop saw the deletion timestamp itself and
      listed no MCP under its own lock, later than the delete request. */
  lemma {:induction false} GatewayDropsAreDrained(callback: bool, s: State, t: Tid)
    requires Reachable(callback, s) && t in s.threads
    requires s.threads[t].job.GatewayJob? && Drop(GATEWAY_FINALIZER) in s.threads[t].patch
    ensures var th := s.threads[t];
            && th.job.deleting && th.seen.Listed? && th.job.g in s.store.gwDeletedAt
            && s.store.gwDeletedAt[th.job.g] <= th.seen.snap.version < |s.store.hist|
            && th.seen.snap.mcps == ListFor(s.store.hist[th.seen.snap.version], th.job.g) == map[]
  {
    ReachableInv(callback, s);
    assert GatewayThreadOk(s.store, s.threads[t]);
  }

  /** And one that schedules the MCP drop saw the deletion timestamp and got true from its own unregister call
      (trivially, when no callback is configured). */
  lemma {:induction false} McpDropsAreAnswered(callback: bool, s: State, t: Tid)
    requires Reachable(callback, s) && t in s.threads
    requires s.threads[t].job.McpJob? && Drop(MCP_FINALIZER) in s.threads[t].patch
    ensures var th := s.threads[t];
            th.job.deleting && th.seen == Answered(true) && th.job.m in s.store.mcpDeleted
  {
    ReachableInv(callback, s);
    assert McpThreadOk(s.store, s.threads[t]);
  }

  lemma {:induction false} EditKeepsGateway(st: Store, e: Edit, g: GatewayKey)
    requires CanEdit(st, e) && HoldsGateway(st, g)
    ensures HoldsGateway(DoEdit(st, e), g)
  {
  }

  lemma {:induction false} EditKeepsMcp(st: Store, e: Edit, m: McpId)
    requires CanEdit(st, e) && HoldsMcp(st, m) && m in st.usedMcps
    ensures HoldsMcp(DoEdit(st, e), m)
  {
  }

  lemma {:induction false} GatewayLoses(s: State, a: Action, g: GatewayKey)
    requires Inv(s) && Enabled(s, a)
    requires HoldsGateway(s.store, g) && !HoldsGateway(Do(s, a).store, g)
    ensures a.Deliver? && s.threads[a.t].job.GatewayJob? && s.threads[a.t].job.g == g
            && Drop(GATEWAY_FINALIZER) in s.threads[a.t].patch && SawDrained(s.store, s.threads[a.t])
  {
    if a.Deliver? {
      GatewayLoser(s.store, s.threads[a.t], g);
      assert GatewayThreadOk(s.store, s.threads[a.t]);
    } else if a.Change? {
      EditKeepsGateway(s.store, a.edit, g);
    }
  }

  /** The only step that takes a gateway's finalizer, or the gateway with it, is the delivery of such a pass. */
  lemma {:induction false} GatewayLosesByDrop(callback: bool, s: State, a: Action, g: GatewayKey)
    requires Reachable(callback, s) && Enabled(s, a)
    requires HoldsGateway(s.store, g) && !HoldsGateway(Do(s, a).store, g)
    ensures a.Deliver? && s.threads[a.t].job.GatewayJob? && s.threads[a.t].job.g == g
            && Drop(GATEWAY_FINALIZER) in s.threads[a.t].patch && SawDrained(s.store, s.threads[a.t])
  {
    ReachableInv(callback, s);
    GatewayLoses(s, a, g);
  }

  lemma {:induction false} McpLosesByDrop(callback: bool, s: State, a: Action, m: McpId)
    requires Reachable(callback, s) && Enabled(s, a)
    requires HoldsMcp(s.store, m) && !HoldsMcp(Do(s, a).store, m)
    ensures a.Deliver? && s.threads[a.t].job.McpJob? && s.threads[a.t].job.m == m
            && Drop(MCP_FINALIZER) in s.threads[a.t].patch && SawUnregistered(s.store, s.threads[a.t])
  {
    ReachableInv(callback, s);
    if a.Deliver? {
      McpLoser(s.store, s.threads[a.t], m);
      assert McpThreadOk(s.store, s.threads[a.t]);
    } else if a.Change? {
      assert McpOk(s.store, s.ev, m);
      EditKeepsMcp(s.store, a.edit, m);
    }
  }

  /** In every reachable state a protected gateway without its finalizer, or gone, was taken by a pass for it
      that saw the deletion timestamp and, later than the delete request, no attached MCP. */
  lemma {:induction false} GatewayOutlivesItsMcps(callback: bool, s: State, g: GatewayKey) returns (taker: Thread)
    requires Reachable(callback, s)
    requires g in s.store.gwProtected && !HoldsGateway(s.store, g)
    ensures taker.job.g == g && SawDrained(s.store, taker)
    ensures forall m | m in s.store.hist[taker.seen.snap.version] ::
        !Attached(s.store.hist[taker.seen.snap.version], m, g)
  {
    ReachableInv(callback, s);
    assert GatewayOk(s.store, s.ev, g);
    taker := s.ev.gateways[g];
    var cat := s.store.hist[taker.seen.snap.version];
    forall m | m in cat ensures !Attached(cat, m, g) {
      assert m !in ListFor(cat, g);
    }
  }

  /** A protected MCP without its finalizer, or gone, was taken by a pass for it that saw the deletion timestamp
      and got true from its own unregister call. */
  lemma {:induction false} McpUnregistersBeforeGc(callback: bool, s: State, m: McpId) returns (taker: Thread)
    requires Reachable(callback, s)
    requires m in s.store.mcpProtected && !HoldsMcp(s.store, m)
    ensures taker.job.McpJob? && taker.job.m == m && SawUnregistered(s.store, taker)
  {
    ReachableInv(callback, s);
    assert McpOk(s.store, s.ev, m);
    taker := s.ev.mcps[m];
  }

  /** The operator's own finalizers on a kind of object. */
  function Own(job: Job): set<string> {
    if job.GatewayJob? then {GATEWAY_FINALIZER} else {MCP_FINALIZER}
  }

  /** Delivering a pass's patch keeps every foreign finalizer in place and in order, and delivering
      the same transforms twice is the same as delivering them once. */
  lemma {:induction false} DeliveryIsPolite(callback: bool, s: State, t: Tid, fs: seq<string>)
    requires Reachable(callback, s)
    requires Enabled(s, Deliver(t))
    ensures var th := s.threads[t];
            && Foreign(ApplyOps(th.patch, fs), Own(th.job)) == Foreign(fs, Own(th.job))
            && ApplyOps(th.patch, ApplyOps(th.patch, fs)) == ApplyOps(th.patch, fs)
  {
    ReachableInv(callback, s);
    var th := s.threads[t];
    assert PatchOk(th);
    ForeignUntouched(th.patch, fs, Own(th.job));
    var own := if th.job.GatewayJob? then GATEWAY_FINALIZER else MCP_FINALIZER;
    assert OnePass(th.patch) by {
      assert Ensures([own]) == [Ensure(own)] && Drops([own]) == [Drop(own)];
      assert Ensures([]) == [];
      assert th.patch == Ensures([]) || th.patch == Ensures([own]) || th.patch == Drops([own]);
    }
    RerunIsNoOp(th.patch, fs);
  }
}
