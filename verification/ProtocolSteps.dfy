/** Building runs step by step: each lemma runs one action, or one stretch of a handler, and
    describes only its effect. */
module ProtocolSteps {
  import opened Common
  import opened Finalizers
  import opened Protocol
  import opened ProtocolSafety
  import opened ProtocolRuns

  /** No handler is under way. */
  ghost predicate Quiescent(s: State) {
    s.threads == map[] && s.lock == map[] && s.store.hist != []
  }

  /** Runs a further action from the end of a run. */
  lemma {:induction false} Extend(s: State, run: seq<Action>, a: Action)
    requires Valid(s, run) && Enabled(Exec(s, run), a)
    ensures Valid(s, run + [a]) && Exec(s, run + [a]) == Do(Exec(s, run), a)
    ensures Calls(run + [a]) == Calls(run) + Calls([a])
    decreases |run|
  {
    if run == [] {
      assert [a][1..] == [];
    } else {
      Extend(Do(s, run[0]), run[1..], a);
      assert (run + [a])[1..] == run[1..] + [a];
    }
  }

  lemma {:induction false} Next(s0: State, n: nat, s: State, a: Action)
    requires Leads(s0, s, n) && Enabled(s, a)
    ensures Leads(s0, Do(s, a), n + if a.SpawnGateway? || a.SpawnMcp? then 1 else 0)
  {
    var run :| Valid(s0, run) && Exec(s0, run) == s && Calls(run) == n;
    Extend(s0, run, a);
    assert [a][1..] == [];
  }

  lemma {:induction false} LeadsHere(s: State)
    ensures Leads(s, s, 0)
  {
    assert Valid(s, []) && Exec(s, []) == s && Calls([]) == 0;
  }

  /** One handler step of thread `t`, described by its effect. */
  lemma {:induction false} Go(from: State, n: nat, s: State, t: Tid, a: Action) returns (s': State)
    requires Leads(from, s, n)
    requires IsHandler(a) && a.t == t && t in s.threads && Ready(s.callback, s.threads[t], a)
    requires a.Acquire? ==> s.threads[t].job.g !in s.lock
    ensures Leads(from, s', n) && s'.store == s.store
    ensures s'.threads == s.threads[t := Advance(s.store, s.threads[t], a)]
    ensures s'.lock == LockAfter(s.lock, t, s.threads[t], Advance(s.store, s.threads[t], a))
    ensures s'.rec == RecordAfter(s.rec, s.threads[t], a)
  {
    Next(from, n, s, a);
    s' := Do(s, a);
  }

  /** The same, when the thread after the step is known. */
  lemma {:induction false} GoTo(from: State, n: nat, s: State, t: Tid, a: Action, th': Thread) returns (s': State)
    requires Leads(from, s, n)
    requires IsHandler(a) && a.t == t && t in s.threads && Ready(s.callback, s.threads[t], a)
    requires a.Acquire? ==> s.threads[t].job.g !in s.lock
    requires Advance(s.store, s.threads[t], a) == th'
    ensures Leads(from, s', n) && s'.store == s.store && s'.callback == s.callback
    ensures s'.threads == s.threads[t := th']
    ensures s'.lock == LockAfter(s.lock, t, s.threads[t], th')
    ensures !a.ApplyOne? && !a.Complete? ==> s'.rec == s.rec
  {
    Next(from, n, s, a);
    s' := Do(s, a);
  }

  lemma {:induction false} GoEdit(from: State, n: nat, s: State, e: Edit) returns (s': State)
    requires Leads(from, s, n) && CanEdit(s.store, e)
    ensures Leads(from, s', n) && s' == s.(store := DoEdit(s.store, e))
  {
    Next(from, n, s, Change(e));
    s' := Do(s, Change(e));
  }

  lemma {:induction false} GoDeliver(from: State, n: nat, s: State, t: Tid) returns (s': State)
    requires Leads(from, s, n) && t in s.threads && s.threads[t].phase == Finished
    ensures Leads(from, s', n)
    ensures s'.store == DoPatch(s.store, s.threads[t].job, s.threads[t].patch)
    ensures s'.threads == s.threads - {t} && s'.lock == s.lock && s'.rec == s.rec && s'.callback == s.callback
  {
    Next(from, n, s, Deliver(t));
    s' := Do(s, Deliver(t));
  }

  lemma {:induction false} GoGateway(from: State, n: nat, s: State, t: Tid, g: GatewayKey) returns (s': State)
    requires Leads(from, s, n) && t !in s.threads && g in s.store.gateways
    ensures Leads(from, s', n + 1)
    ensures var cr := s.store.gateways[g];
            var job := GatewayJob(g, cr.spec, cr.deleting, cr.finalizers);
            s' == s.(threads := s.threads[t := Thread(job, Waiting, [], Nothing)])
  {
    Next(from, n, s, SpawnGateway(t, g));
    s' := Do(s, SpawnGateway(t, g));
  }

  lemma {:induction false} GoMcp(from: State, n: nat, s: State, t: Tid, m: McpId) returns (s': State)
    requires Leads(from, s, n) && t !in s.threads && m in Current(s.store)
    ensures Leads(from, s', n + 1)
    ensures var cr := Current(s.store)[m];
            var job := McpJob(m, GatewayKey(m.namespace, cr.gateway), cr.deleting, cr.finalizers);
            s' == s.(threads := s.threads[t := Thread(job, Waiting, [], Nothing)])
  {
    Next(from, n, s, SpawnMcp(t, m));
    s' := Do(s, SpawnMcp(t, m));
  }

  /** What a listing of this moment would be for `g`, taken for a spec. */
  function SnapNow(st: Store, spec: GwSpec, g: GatewayKey): Snapshot
    requires st.hist != []
  {
    Snapshot(spec, |st.hist| - 1, ListFor(Current(st), g))
  }

  /** A waiting gateway pass on a free lock takes its locked listing. */
  lemma {:induction false} GatewayLists(from: State, n: nat, s: State, t: Tid) returns (s': State)
    requires Leads(from, s, n) && t in s.threads && s.store.hist != []
    requires s.threads[t].job.GatewayJob? && s.threads[t].phase.Waiting? && s.threads[t].job.g !in s.lock
    ensures Leads(from, s', n) && s'.store == s.store && s'.rec == s.rec
    ensures var th := s.threads[t];
            var snap := SnapNow(s.store, th.job.spec, th.job.g);
            && s'.threads == s.threads[t := th.(phase := Phase.Listing(snap), seen := Listed(snap))]
            && s'.lock == s.lock[th.job.g := t]
  {
    s' := Go(from, n, s, t, Acquire(t));
    s' := Go(from, n, s', t, List(t));
  }

  /** A non-deleting MCP pass inside the lock reads the gateway and decides to apply. */
  lemma {:induction false} McpPassReads(from: State, n: nat, s0: State, t: Tid) returns (s: State)
    requires Leads(from, s0, n) && t in s0.threads
    requires var th := s0.threads[t];
             th.job.McpJob? && !th.job.deleting && th.phase.Entered? && th.job.g in s0.store.gateways
    ensures Leads(from, s, n) && s.store == s0.store && s.rec == s0.rec && s.lock == s0.lock
    ensures var th := s0.threads[t];
            s.threads == s0.threads[t := th.(phase := OwnApplied(s0.store.gateways[th.job.g].spec))]
  {
    var th := s0.threads[t];
    var spec := s0.store.gateways[th.job.g].spec;
    s := GoTo(from, n, s0, t, LookUp(t), th.(phase := Looked(Some(spec))));
    McpDecides(s.store, s.threads[t], t);
    s := GoTo(from, n, s, t, Decide(t), th.(phase := OwnApplied(spec)));
  }

  /** And takes its listing. */
  lemma {:induction false} McpPassLists(from: State, n: nat, s0: State, t: Tid) returns (s: State)
    requires Leads(from, s0, n) && t in s0.threads && s0.store.hist != []
    requires var th := s0.threads[t];
             th.job.McpJob? && !th.job.deleting && th.phase.Entered? && th.job.g in s0.store.gateways
    ensures Leads(from, s, n) && s.store == s0.store && s.rec == s0.rec && s.lock == s0.lock
    ensures var th := s0.threads[t];
            var snap := SnapNow(s0.store, s0.store.gateways[th.job.g].spec, th.job.g);
            s.threads == s0.threads[t := th.(phase := Phase.Listing(snap))]
  {
    var th := s0.threads[t];
    s := McpPassReads(from, n, s0, t);
    var snap := SnapNow(s.store, s0.store.gateways[th.job.g].spec, th.job.g);
    s := GoTo(from, n, s, t, List(t), th.(phase := Phase.Listing(snap)));
  }

  lemma {:induction false} McpDecides(st: Store, th: Thread, t: Tid)
    requires th.job.McpJob? && !th.job.deleting && th.phase.Looked? && th.phase.gw.Some?
    ensures Advance(st, th, Decide(t)) == th.(phase := OwnApplied(th.phase.gw.value))
  {
  }

  // ---------------------------------------------------------------- whole sections

  /** The log entries of an apply loop over the manifests `a` to `b`. */
  function Applies(snap: Snapshot, a: nat, b: nat, byMcp: bool): seq<Applied>
    requires a <= b <= Count(snap.spec)
  {
    seq(b - a, i requires 0 <= i < b - a => Applied(ManifestAt(snap.spec, a + i), snap, byMcp))
  }

  lemma {:induction false} AppliesCons(log: seq<Applied>, snap: Snapshot, a: nat, b: nat, byMcp: bool)
    requires a < b <= Count(snap.spec)
    ensures log + [Applied(ManifestAt(snap.spec, a), snap, byMcp)] + Applies(snap, a + 1, b, byMcp)
         == log + Applies(snap, a, b, byMcp)
  {
    assert Applies(snap, a, b, byMcp)
        == [Applied(ManifestAt(snap.spec, a), snap, byMcp)] + Applies(snap, a + 1, b, byMcp);
  }

  lemma {:induction false} TwiceSet<K, V>(m: map<K, V>, k: K, v: V, w: V)
    ensures m[k := v][k := w] == m[k := w]
  {
  }

  /** The apply loop from where it is to its end. */
  lemma {:induction false} ApplyAll(from: State, n: nat, s: State, t: Tid) returns (s': State)
    requires Leads(from, s, n) && t in s.threads && s.threads[t].phase.Applying?
    requires s.threads[t].phase.next <= Count(s.threads[t].phase.snap.spec)
    ensures Leads(from, s', n) && s'.store == s.store && s'.lock == s.lock
    ensures var th := s.threads[t];
            var g, snap, count := th.job.g, th.phase.snap, Count(th.phase.snap.spec);
            && s'.threads == s.threads[t := th.(phase := Applying(snap, count))]
            && LogOf(s'.rec, g) == LogOf(s.rec, g) + Applies(snap, th.phase.next, count, th.job.McpJob?)
    decreases Count(s.threads[t].phase.snap.spec) - s.threads[t].phase.next
  {
    var th := s.threads[t];
    var snap, next := th.phase.snap, th.phase.next;
    if next == Count(snap.spec) {
      s' := s;
      assert s.threads[t := th.(phase := Applying(snap, next))] == s.threads;
      assert Applies(snap, next, next, th.job.McpJob?) == [];
    } else {
      var s1 := ApplyNext(from, n, s, t);
      s' := ApplyAll(from, n, s1, t);
      TwiceSet(s.threads, t, s1.threads[t], s'.threads[t]);
      AppliesCons(LogOf(s.rec, th.job.g), snap, next, Count(snap.spec), th.job.McpJob?);
    }
  }

  lemma {:induction false} ApplyNext(from: State, n: nat, s: State, t: Tid) returns (s': State)
    requires Leads(from, s, n) && t in s.threads && s.threads[t].phase.Applying?
    requires s.threads[t].phase.next < Count(s.threads[t].phase.snap.spec)
    ensures Leads(from, s', n) && s'.store == s.store && s'.lock == s.lock
    ensures var th := s.threads[t];
            && s'.threads == s.threads[t := th.(phase := Applying(th.phase.snap, th.phase.next + 1))]
            && LogOf(s'.rec, th.job.g) == LogOf(s.rec, th.job.g) + [NextEntry(th)]
  {
    Next(from, n, s, ApplyOne(t));
    s' := ApplyOneEffect(s, t);
    assert s'.lock == s.lock;
  }

  /** The adds a completed pass schedules. */
  function FinalAdds(job: Job): seq<Op> {
    Ensures(DecisionOf(job, 0, true).add)
  }

  /** A completed apply loop settles the gateway; a gateway pass is then done. */
  lemma {:induction false} CompleteEffect(from: State, n: nat, s: State, t: Tid) returns (s': State)
    requires Leads(from, s, n) && t in s.threads && s.threads[t].job.GatewayJob?
    requires s.threads[t].phase.Applying? && s.threads[t].phase.next == Count(s.threads[t].phase.snap.spec)
    ensures Leads(from, s', n) && s'.store == s.store
    ensures var th := s.threads[t];
            && s'.threads == s.threads[t := th.(phase := Finished, patch := th.patch + FinalAdds(th.job))]
            && s'.lock == s.lock - {th.job.g} && s'.rec == s.rec.(settled := s.rec.settled[th.job.g := th.phase.snap])
  {
    Next(from, n, s, Complete(t));
    s' := Do(s, Complete(t));
  }

  lemma {:induction false} GatewayDecides(st: Store, th: Thread, t: Tid)
    requires th.job.GatewayJob? && !th.job.deleting && th.phase.Listing?
    ensures Advance(st, th, Decide(t)) == th.(phase := Applying(th.phase.snap, 0))
  {
  }

  /** A waiting, non-deleting gateway pass on a free lock runs its whole section. */
  lemma {:induction false} GatewaySection(from: State, n: nat, s: State, t: Tid) returns (s': State)
    requires Leads(from, s, n) && t in s.threads && s.store.hist != []
    requires var th := s.threads[t];
             th.job.GatewayJob? && !th.job.deleting && th.phase.Waiting? && th.job.g !in s.lock
    ensures Leads(from, s', n) && s'.store == s.store && s'.lock == s.lock
    ensures var th := s.threads[t];
            var g, count := th.job.g, Count(th.job.spec);
            var snap := SnapNow(s.store, th.job.spec, g);
            && s'.threads == s.threads[t := Thread(th.job, Finished, th.patch + FinalAdds(th.job), Listed(snap))]
            && LogOf(s'.rec, g) == LogOf(s.rec, g) + Applies(snap, 0, count, false)
            && g in s'.rec.settled && s'.rec.settled[g] == snap
  {
    var s1 := GatewayStarts(from, n, s, t);
    var th1 := s1.threads[t];
    var s2 := ApplyAll(from, n, s1, t);
    s' := CompleteEffect(from, n, s2, t);
    assert s'.threads == s.threads[t := s'.threads[t]];
    assert s'.lock == s.lock;
    assert LogOf(s'.rec, th1.job.g) == LogOf(s2.rec, th1.job.g);
  }

  lemma {:induction false} GatewayStarts(from: State, n: nat, s: State, t: Tid) returns (s': State)
    requires Leads(from, s, n) && t in s.threads && s.store.hist != []
    requires var th := s.threads[t];
             th.job.GatewayJob? && !th.job.deleting && th.phase.Waiting? && th.job.g !in s.lock
    ensures Leads(from, s', n) && s'.store == s.store && s'.rec == s.rec
    ensures var th := s.threads[t];
            var snap := SnapNow(s.store, th.job.spec, th.job.g);
            && s'.threads == s.threads[t := th.(phase := Applying(snap, 0), seen := Listed(snap))]
            && s'.lock == s.lock[th.job.g := t]
  {
    s' := GatewayLists(from, n, s, t);
    var th := s'.threads[t];
    GatewayDecides(s'.store, th, t);
    s' := GoTo(from, n, s', t, Decide(t), th.(phase := Applying(th.phase.snap, 0)));
  }

  /** A non-deleting MCP pass that holds the lock runs its whole section. */
  lemma {:induction false} McpSection(from: State, n: nat, s: State, t: Tid) returns (s': State)
    requires Leads(from, s, n) && t in s.threads && s.store.hist != []
    requires var th := s.threads[t];
             th.job.McpJob? && !th.job.deleting && th.phase.Entered? && th.job.g in s.store.gateways
    ensures Leads(from, s', n) && s'.store == s.store && s'.lock == s.lock - {s.threads[t].job.g}
    ensures t in s'.threads && s'.threads == s.threads[t := s'.threads[t]]
    ensures var th := s.threads[t];
            var snap := SnapNow(s.store, s.store.gateways[th.job.g].spec, th.job.g);
            LogOf(s'.rec, th.job.g) == LogOf(s.rec, th.job.g) + Applies(snap, 0, Count(snap.spec), true)
  {
    var s1 := McpPassLists(from, n, s, t);
    var th1 := s1.threads[t];
    s1 := GoTo(from, n, s1, t, Begin(t), th1.(phase := Applying(th1.phase.snap, 0)));
    var s2 := ApplyAll(from, n, s1, t);
    s' := SectionEnds(from, n, s2, t);
    assert s'.threads == s.threads[t := s'.threads[t]];
    assert LogOf(s'.rec, th1.job.g) == LogOf(s2.rec, th1.job.g);
  }

  /** The end of an MCP pass's section after its last apply. */
  lemma {:induction false} SectionEnds(from: State, n: nat, s0: State, t: Tid) returns (s: State)
    requires Leads(from, s0, n) && t in s0.threads && s0.threads[t].job.McpJob?
    requires s0.threads[t].phase.Applying? && s0.threads[t].phase.next == Count(s0.threads[t].phase.snap.spec)
    ensures Leads(from, s, n) && s.store == s0.store && s.lock == s0.lock - {s0.threads[t].job.g}
    ensures t in s.threads && s.threads == s0.threads[t := s.threads[t]] && s.rec.log == s0.rec.log
  {
    s := Go(from, n, s0, t, Complete(t));
    s := Go(from, n, s, t, Leave(t));
  }
}
