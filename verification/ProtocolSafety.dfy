/** Inductive invariants of the reconcile protocol and what they give over whole runs. */
module ProtocolSafety {
  import opened Common
  import opened Finalizers
  import opened Protocol

  predicate IsHandler(a: Action) {
    !a.Change? && !a.SpawnGateway? && !a.SpawnMcp? && !a.Deliver?
  }

  // ---------------------------------------------------------------- the lock

  ghost predicate InvLock(s: State) {
    && |s.store.hist| > 0
    && (forall g | g in s.lock ::
          s.lock[g] in s.threads && s.threads[s.lock[g]].job.g == g && InSection(s.threads[s.lock[g]].phase))
    && (forall t | t in s.threads && InSection(s.threads[t].phase) ::
          s.threads[t].job.g in s.lock && s.lock[s.threads[t].job.g] == t)
  }

  lemma {:induction false} AdvanceFacts(st: Store, th: Thread, a: Action)
    requires Ready(true, th, a)
    ensures Advance(st, th, a).job == th.job
    ensures InSection(Advance(st, th, a).phase) && !InSection(th.phase) ==> a.Acquire?
  {
  }

  /** Store changes only append to the catalog history. */
  lemma {:induction false} StoreGrows(s: State, a: Action)
    requires Enabled(s, a)
    ensures |Do(s, a).store.hist| >= |s.store.hist|
    ensures Do(s, a).store.hist[..|s.store.hist|] == s.store.hist
    ensures forall v | 0 <= v < |s.store.hist| :: Do(s, a).store.hist[v] == s.store.hist[v]
  {
  }

  /** A handler step, described by its effect. */
  lemma {:induction false} HandlerEffect(s: State, a: Action) returns (s': State, th': Thread)
    requires Enabled(s, a) && IsHandler(a)
    ensures s' == Do(s, a) && Ready(true, s.threads[a.t], a) && th' == Advance(s.store, s.threads[a.t], a)
    ensures s'.store == s.store && s'.threads == s.threads[a.t := th'] && th'.job == s.threads[a.t].job
    ensures s'.lock == LockAfter(s.lock, a.t, s.threads[a.t], th')
    ensures s'.rec == RecordAfter(s.rec, s.threads[a.t], a)
    ensures s'.ev == s.ev
  {
    s' := Do(s, a);
    th' := Advance(s.store, s.threads[a.t], a);
    AdvanceFacts(s.store, s.threads[a.t], a);
  }

  lemma {:induction false} DeliverEffect(s: State, t: Tid) returns (s': State)
    requires Enabled(s, Deliver(t))
    ensures s' == Do(s, Deliver(t)) && s'.threads == s.threads - {t} && s'.rec == s.rec && s'.lock == s.lock
    ensures s'.store == DoPatch(s.store, s.threads[t].job, s.threads[t].patch)
    ensures s'.ev == EvidenceAfter(s.ev, s.store, s'.store, s.threads[t])
    ensures s'.store.usedMcps == s.store.usedMcps && s'.store.mcpDeleted == s.store.mcpDeleted
    ensures s'.store.gwDeletedAt == s.store.gwDeletedAt && s'.store.specs == s.store.specs
  {
    s' := Do(s, Deliver(t));
  }

  /** The holders of the locks over one handler step. */
  lemma {:induction false} LockFrame(s: State, s': State, t: Tid, th': Thread)
    requires InvLock(s) && t in s.threads && th'.job == s.threads[t].job
    requires s'.store == s.store && s'.threads == s.threads[t := th']
    requires s'.lock == LockAfter(s.lock, t, s.threads[t], th')
    requires InSection(th'.phase) && !InSection(s.threads[t].phase) ==> th'.job.g !in s.lock
    ensures InvLock(s')
  {
  }

  lemma {:induction false} LockStep(s: State, a: Action)
    requires InvLock(s) && Enabled(s, a)
    ensures InvLock(Do(s, a))
  {
    if IsHandler(a) {
      var s', th' := HandlerEffect(s, a);
      AdvanceFacts(s.store, s.threads[a.t], a);
      LockFrame(s, s', a.t, th');
    } else {
      StoreGrows(s, a);
    }
  }

  // ---------------------------------------------------------------- snapshots and applies

  predicate HasSnap(p: Phase) {
    p.Listing? || p.Applying?
  }

  ghost predicate SnapOk(hist: seq<Catalog>, g: GatewayKey, snap: Snapshot) {
    snap.version < |hist| && snap.mcps == ListFor(hist[snap.version], g)
  }

  ghost predicate LogUpTo(log: seq<Applied>, v: int) {
    forall i | 0 <= i < |log| :: log[i].snap.version <= v
  }

  ghost predicate LogSorted(log: seq<Applied>) {
    forall i, j | 0 <= i < j < |log| :: log[i].snap.version <= log[j].snap.version
  }

  /** The last `n` applies put the first `n` manifests of the snapshot in the cluster, in order. */
  ghost predicate EndsWith(log: seq<Applied>, snap: Snapshot, n: nat) {
    && n <= |log| && n <= Count(snap.spec)
    && forall i | |log| - n <= i < |log| ::
         log[i].snap == snap && log[i].item == ManifestAt(snap.spec, i - (|log| - n))
  }

  /** One more apply. */
  lemma {:induction false} EndsSnoc(log: seq<Applied>, snap: Snapshot, n: nat, byMcp: bool)
    requires EndsWith(log, snap, n) && n < Count(snap.spec)
    ensures EndsWith(log + [Applied(ManifestAt(snap.spec, n), snap, byMcp)], snap, n + 1)
  {
  }

  ghost predicate ThreadSnap(hist: seq<Catalog>, r: Record, th: Thread) {
    HasSnap(th.phase) ==>
      && SnapOk(hist, th.job.g, th.phase.snap)
      && LogUpTo(LogOf(r, th.job.g), th.phase.snap.version)
      && (th.phase.Applying? ==>
            EndsWith(LogOf(r, th.job.g), th.phase.snap, th.phase.next))
  }

  ghost predicate Renders(spec: GwSpec, item: Manifest) {
    exists i: nat :: i < Count(spec) && ManifestAt(spec, i) == item
  }

  /** Every apply is of a manifest of its spec; a Deployment follows its pass's ConfigMap. */
  ghost predicate EntryOk(log: seq<Applied>, i: nat)
    requires i < |log|
  {
    && Renders(log[i].snap.spec, log[i].item)
    && (log[i].item.slot == Deployment ==>
          exists j :: 0 <= j < i && log[j].item.slot == ConfigMap && log[j].snap == log[i].snap)
  }

  lemma {:induction false} EntrySnoc(log: seq<Applied>, snap: Snapshot, n: nat, byMcp: bool)
    requires EndsWith(log, snap, n) && n < Count(snap.spec) && forall i | 0 <= i < |log| :: EntryOk(log, i)
    ensures var log' := log + [Applied(ManifestAt(snap.spec, n), snap, byMcp)];
            forall i | 0 <= i < |log'| :: EntryOk(log', i)
  {
    var log' := log + [Applied(ManifestAt(snap.spec, n), snap, byMcp)];
    forall i | 0 <= i < |log'| ensures EntryOk(log', i) {
      if i < |log| {
        assert EntryOk(log, i) && log'[i] == log[i];
        if log[i].item.slot == Deployment {
          var j :| 0 <= j < i && log[j].item.slot == ConfigMap && log[j].snap == log[i].snap;
          assert log'[j] == log[j];
        }
      } else if ManifestAt(snap.spec, n).slot == Deployment {
        var j := |log| - n + 1;
        assert n >= 3 && log'[j] == log[j] && log[j].item == ManifestAt(snap.spec, 1);
      }
    }
  }

  ghost predicate RecordOk(hist: seq<Catalog>, r: Record, g: GatewayKey) {
    && (forall i | 0 <= i < |LogOf(r, g)| :: EntryOk(LogOf(r, g), i))
    && LogSorted(LogOf(r, g))
    && LogUpTo(LogOf(r, g), |hist| - 1)
    && (forall i | 0 <= i < |LogOf(r, g)| :: SnapOk(hist, g, LogOf(r, g)[i].snap))
    && (g in r.settled ==>
          && SnapOk(hist, g, r.settled[g]) && LogUpTo(LogOf(r, g), r.settled[g].version)
          && EndsWith(LogOf(r, g), r.settled[g], Count(r.settled[g].spec)))
  }

  ghost predicate InvSnap(s: State) {
    && (forall t | t in s.threads :: ThreadSnap(s.store.hist, s.rec, s.threads[t]))
    && (forall g :: RecordOk(s.store.hist, s.rec, g))
  }

  /** Growing the history keeps every recorded snapshot true. */
  lemma {:induction false} SnapGrows(s: State, a: Action)
    requires InvSnap(s) && Enabled(s, a) && !IsHandler(a)
    ensures InvSnap(Do(s, a))
  {
    StoreGrows(s, a);
    var s' := Do(s, a);
    forall g ensures RecordOk(s'.store.hist, s'.rec, g) {
      assert RecordOk(s.store.hist, s.rec, g);
    }
    forall t | t in s'.threads ensures ThreadSnap(s'.store.hist, s'.rec, s'.threads[t]) {
      assert t in s.threads ==> ThreadSnap(s.store.hist, s.rec, s.threads[t]);
    }
  }

  /** The record after one apply. */
  function ApplyTo(r: Record, g: GatewayKey, e: Applied): Record {
    Record(r.objects[(g, e.item.slot) := e], r.log[g := LogOf(r, g) + [e]], r.settled - {g})
  }

  /** The log entry a thread's next apply makes. */
  function NextEntry(th: Thread): Applied
    requires th.phase.Applying? && th.phase.next < Count(th.phase.snap.spec)
  {
    Applied(ManifestAt(th.phase.snap.spec, th.phase.next), th.phase.snap, th.job.McpJob?)
  }

  lemma {:induction false} ApplyRecord(hist: seq<Catalog>, r: Record, g: GatewayKey, e: Applied, h: GatewayKey)
    requires RecordOk(hist, r, g) && RecordOk(hist, r, h)
    requires SnapOk(hist, g, e.snap) && LogUpTo(LogOf(r, g), e.snap.version)
    requires forall i | 0 <= i <= |LogOf(r, g)| :: EntryOk(LogOf(r, g) + [e], i)
    ensures RecordOk(hist, ApplyTo(r, g, e), h)
  {
    var r' := ApplyTo(r, g, e);
    if h == g {
      assert LogOf(r', g) == LogOf(r, g) + [e];
    } else {
      assert LogOf(r', h) == LogOf(r, h);
    }
  }

  lemma {:induction false} ApplyOther(hist: seq<Catalog>, r: Record, g: GatewayKey, e: Applied, th: Thread)
    requires ThreadSnap(hist, r, th) && (HasSnap(th.phase) ==> th.job.g != g)
    ensures ThreadSnap(hist, ApplyTo(r, g, e), th)
  {
    assert th.job.g != g ==> LogOf(ApplyTo(r, g, e), th.job.g) == LogOf(r, th.job.g);
  }

  lemma {:induction false} ApplySelf(hist: seq<Catalog>, r: Record, th: Thread)
    requires ThreadSnap(hist, r, th) && th.phase.Applying? && th.phase.next < Count(th.phase.snap.spec)
    ensures ThreadSnap(hist, ApplyTo(r, th.job.g, NextEntry(th)),
                       th.(phase := Applying(th.phase.snap, th.phase.next + 1)))
  {
    var r' := ApplyTo(r, th.job.g, NextEntry(th));
    EndsSnoc(LogOf(r, th.job.g), th.phase.snap, th.phase.next, th.job.McpJob?);
    assert LogOf(r', th.job.g) == LogOf(r, th.job.g) + [NextEntry(th)];
  }

  lemma {:induction false} ApplyOneEffect(s: State, t: Tid) returns (s': State)
    requires Enabled(s, ApplyOne(t))
    ensures s' == Do(s, ApplyOne(t)) && s'.store == s.store
    ensures var th := s.threads[t];
            && th.phase.Applying? && th.phase.next < Count(th.phase.snap.spec)
            && s'.threads == s.threads[t := th.(phase := Applying(th.phase.snap, th.phase.next + 1))]
            && s'.rec == ApplyTo(s.rec, th.job.g, NextEntry(th))
  {
    s' := Do(s, ApplyOne(t));
  }

  /** Only the lock holder of a gateway is applying for it. */
  lemma {:induction false} OthersElsewhere(s: State, t: Tid, u: Tid)
    requires InvLock(s) && t in s.threads && u in s.threads && t != u
    requires InSection(s.threads[t].phase) && InSection(s.threads[u].phase)
    ensures s.threads[u].job.g != s.threads[t].job.g
  {
  }

  /** So its snapshot is the newest one. */
  lemma {:induction false} ApplyOneSnap(s: State, t: Tid)
    requires InvLock(s) && InvSnap(s) && Enabled(s, ApplyOne(t))
    ensures InvSnap(Do(s, ApplyOne(t)))
  {
    var s' := ApplyOneEffect(s, t);
    var th, hist := s.threads[t], s.store.hist;
    assert ThreadSnap(hist, s.rec, th);
    forall h ensures RecordOk(hist, s'.rec, h) {
      assert RecordOk(hist, s.rec, th.job.g) && RecordOk(hist, s.rec, h);
      EntrySnoc(LogOf(s.rec, th.job.g), th.phase.snap, th.phase.next, th.job.McpJob?);
      ApplyRecord(hist, s.rec, th.job.g, NextEntry(th), h);
    }
    forall u | u in s'.threads ensures ThreadSnap(hist, s'.rec, s'.threads[u]) {
      if u == t {
        ApplySelf(hist, s.rec, th);
      } else {
        assert ThreadSnap(hist, s.rec, s.threads[u]);
        if HasSnap(s.threads[u].phase) { OthersElsewhere(s, t, u); }
        ApplyOther(hist, s.rec, th.job.g, NextEntry(th), s.threads[u]);
      }
    }
  }

  /** A thread's own snapshot over a step without an apply. */
  lemma {:induction false} AdvanceSnap(st: Store, r: Record, th: Thread, a: Action)
    requires st.hist != [] && Ready(true, th, a) && !a.ApplyOne?
    requires ThreadSnap(st.hist, r, th) && RecordOk(st.hist, r, th.job.g)
    ensures ThreadSnap(st.hist, r, Advance(st, th, a))
    ensures RecordOk(st.hist, RecordAfter(r, th, a), th.job.g)
    ensures RecordAfter(r, th, a).log == r.log && RecordAfter(r, th, a).objects == r.objects
    ensures forall h | h != th.job.g :: (h in RecordAfter(r, th, a).settled <==> h in r.settled)
                                        && (h in r.settled ==> RecordAfter(r, th, a).settled[h] == r.settled[h])
  {
    assert LogOf(RecordAfter(r, th, a), th.job.g) == LogOf(r, th.job.g);
  }

  /** Everything else over such a step. */
  lemma {:induction false} SnapFrame(s: State, s': State, t: Tid, th': Thread)
    requires InvSnap(s) && t in s.threads
    requires s'.store == s.store && s'.threads == s.threads[t := th']
    requires s'.rec.log == s.rec.log && s'.rec.objects == s.rec.objects
    requires ThreadSnap(s.store.hist, s.rec, th') && RecordOk(s.store.hist, s'.rec, s.threads[t].job.g)
    requires forall h | h != s.threads[t].job.g :: (h in s'.rec.settled <==> h in s.rec.settled)
                                                   && (h in s.rec.settled ==> s'.rec.settled[h] == s.rec.settled[h])
    ensures InvSnap(s')
  {
    var hist := s.store.hist;
    forall h ensures RecordOk(hist, s'.rec, h) {
      assert RecordOk(hist, s.rec, h);
      assert LogOf(s'.rec, h) == LogOf(s.rec, h);
    }
    forall u | u in s'.threads ensures ThreadSnap(hist, s'.rec, s'.threads[u]) {
      assert ThreadSnap(hist, s.rec, s'.threads[u]);
      assert LogOf(s'.rec, s'.threads[u].job.g) == LogOf(s.rec, s'.threads[u].job.g);
    }
  }

  lemma {:induction false} QuietSnap(s: State, a: Action)
    requires InvLock(s) && InvSnap(s) && Enabled(s, a) && IsHandler(a) && !a.ApplyOne?
    ensures InvSnap(Do(s, a))
  {
    var s', th' := HandlerEffect(s, a);
    var th := s.threads[a.t];
    assert ThreadSnap(s.store.hist, s.rec, th) && RecordOk(s.store.hist, s.rec, th.job.g);
    AdvanceSnap(s.store, s.rec, th, a);
    SnapFrame(s, s', a.t, th');
  }

  lemma {:induction false} SnapStep(s: State, a: Action)
    requires InvLock(s) && InvSnap(s) && Enabled(s, a)
    ensures InvSnap(Do(s, a))
  {
    if !IsHandler(a) {
      SnapGrows(s, a);
    } else if a.ApplyOne? {
      ApplyOneSnap(s, a.t);
    } else {
      QuietSnap(s, a);
    }
  }

  // ---------------------------------------------------------------- objects and the log

  predicate LastAt(log: seq<Applied>, k: Slot, i: int) {
    0 <= i < |log| && log[i].item.slot == k && forall j | i < j < |log| :: log[j].item.slot != k
  }

  /** The last apply to a slot. */
  function LastFor(log: seq<Applied>, k: Slot): (e: Option<Applied>)
    ensures e.None? <==> forall i | 0 <= i < |log| :: log[i].item.slot != k
    ensures e.Some? ==> exists i :: LastAt(log, k, i) && log[i] == e.value
    decreases |log|
  {
    if log == [] then None
    else if log[|log| - 1].item.slot == k then assert LastAt(log, k, |log| - 1); Some(log[|log| - 1])
    else
      var n := |log| - 1;
      assert forall i | 0 <= i < n :: log[..n][i] == log[i];
      assert forall i | LastAt(log[..n], k, i) :: LastAt(log, k, i);
      LastFor(log[..n], k)
  }

  function ObjectAt(r: Record, g: GatewayKey, k: Slot): Option<Applied> {
    if (g, k) in r.objects then Some(r.objects[(g, k)]) else None
  }

  /** Objects are never deleted: each slot holds what was last applied to it. */
  ghost predicate InvObjects(s: State) {
    forall g, k: Slot :: ObjectAt(s.rec, g, k) == LastFor(LogOf(s.rec, g), k)
  }

  lemma {:induction false} LastForSnoc(log: seq<Applied>, e: Applied, k: Slot)
    ensures LastFor(log + [e], k) == if e.item.slot == k then Some(e) else LastFor(log, k)
  {
    assert (log + [e])[..|log|] == log;
  }

  lemma {:induction false} ApplyObjects(r: Record, g: GatewayKey, e: Applied, h: GatewayKey, k: Slot)
    requires ObjectAt(r, h, k) == LastFor(LogOf(r, h), k)
    ensures var r' := ApplyTo(r, g, e);
            ObjectAt(r', h, k) == LastFor(LogOf(r', h), k)
  {
    LastForSnoc(LogOf(r, g), e, k);
  }

  lemma {:induction false} QuietRecord(s: State, a: Action)
    requires Enabled(s, a) && !a.ApplyOne?
    ensures Do(s, a).rec.objects == s.rec.objects && Do(s, a).rec.log == s.rec.log
  {
  }

  lemma {:induction false} ObjectsStep(s: State, a: Action)
    requires InvObjects(s) && Enabled(s, a)
    ensures InvObjects(Do(s, a))
  {
    if a.ApplyOne? {
      var s' := ApplyOneEffect(s, a.t);
      var th := s.threads[a.t];
      forall g, k: Slot ensures ObjectAt(s'.rec, g, k) == LastFor(LogOf(s'.rec, g), k) {
        ApplyObjects(s.rec, th.job.g, NextEntry(th), g, k);
      }
    } else {
      QuietRecord(s, a);
      var s' := Do(s, a);
      forall g, k: Slot ensures ObjectAt(s'.rec, g, k) == LastFor(LogOf(s'.rec, g), k) {
        assert ObjectAt(s.rec, g, k) == LastFor(LogOf(s.rec, g), k);
        assert LogOf(s'.rec, g) == LogOf(s.rec, g);
      }
    }
  }
}
