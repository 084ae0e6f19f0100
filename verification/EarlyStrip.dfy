/** `plan_early_identity_strip`: one ListenerPolicy per parent gateway that wants identity headers
    stripped before authentication, and which parents really end up with one. */
module EarlyStrip {
  import opened Common

  /** A route's parent and whether it asks for stripping. */
  datatype StripRoute = StripRoute(strip: bool, parent: ParentRef)

  /** A policy's `targetRef`: a gateway of the policy's own namespace, and one of its listeners if a section is
      named. */
  datatype Target = Target(name: string, section: Option<string>)

  datatype Policy = Policy(name: string, target: Target)
  datatype Phase = Disabled | Applied | SkippedCrossNamespace

  /** The plan; `skipped` are the parents its message names as living in another namespace. */
  datatype Plan = Plan(objects: seq<Policy>, phase: Phase, skipped: seq<ParentRef>)

  function NonEmpty(s: Option<string>): bool {
    s.Some? && s.value != ""
  }

  /** `ref.namespace or gateway.key.namespace`. */
  predicate SameNamespace(ns: string, p: ParentRef) {
    !NonEmpty(p.namespace) || p.namespace.value == ns
  }

  function TargetOf(p: ParentRef): Target {
    Target(p.name, if NonEmpty(p.sectionName) then p.sectionName else None)
  }

  // ---------------------------------------------------------------- policy names

  predicate NameChar(c: char) {
    '0' <= c <= '9' || 'a' <= c <= 'z' || 'A' <= c <= 'Z' || c == '-'
  }

  /** What is emitted for the rest of the raw name: runs of other characters and dashes become one dash. */
  function Clean(raw: string, prevDash: bool): string {
    if raw == [] then []
    else if NameChar(raw[0]) && !(raw[0] == '-' && prevDash) then [raw[0]] + Clean(raw[1..], raw[0] == '-')
    else if !NameChar(raw[0]) && !prevDash then "-" + Clean(raw[1..], true)
    else Clean(raw[1..], prevDash)
  }

  function DropDashes(s: string): string {
    if s != [] && s[0] == '-' then DropDashes(s[1..]) else s
  }

  function DropEndDashes(s: string): string {
    if s != [] && s[|s| - 1] == '-' then DropEndDashes(s[..|s| - 1]) else s
  }

  function Raw(gateway: string, p: ParentRef): string {
    gateway + "-" + "identity-strip" + "-" + p.name + if NonEmpty(p.sectionName) then "-" + p.sectionName.value else ""
  }

  function PolicyName(gateway: string, p: ParentRef): string {
    var n := DropEndDashes(DropDashes(Clean(Lower(Raw(gateway, p)), false)));
    if |n| > 253 then n[..253] else n
  }

  /** The character loop of `_listener_policy_name`. */
  method CleanName(raw: string) returns (cleaned: string)
    ensures cleaned == Clean(raw, false)
  {
    cleaned := "";
    var prevDash := false;
    for i := 0 to |raw|
      invariant cleaned + Clean(raw[i..], prevDash) == Clean(raw, false)
    {
      assert raw[i..][1..] == raw[i + 1..];
      var c := raw[i];
      var ok := NameChar(c);
      if ok && !(c == '-' && prevDash) {
        cleaned := cleaned + [c];
        prevDash := c == '-';
      } else if !ok && !prevDash {
        cleaned := cleaned + "-";
        prevDash := true;
      }
    }
    assert raw[|raw|..] == [] && cleaned + Clean([], prevDash) == cleaned;
  }

  /** `_listener_policy_name`. */
  method ListenerPolicyName(gateway: string, p: ParentRef) returns (name: string)
    ensures name == PolicyName(gateway, p)
  {
    var cleaned := CleanName(Lower(Raw(gateway, p)));
    name := DropEndDashes(DropDashes(cleaned));
    if |name| > 253 {
      name := name[..253];
    }
  }

  /** A parent with a section and one whose name spells the same dash-joined text get one policy name. */
  lemma {:induction false} PolicyNamesCollide(gateway: string, parent: string, section: string)
    requires section != ""
    ensures PolicyName(gateway, ParentRef(parent, None, Some(section)))
         == PolicyName(gateway, ParentRef(parent + "-" + section, None, None))
  {
    assert Raw(gateway, ParentRef(parent, None, Some(section)))
        == Raw(gateway, ParentRef(parent + "-" + section, None, None));
  }

  // ---------------------------------------------------------------- the plan

  /** Parents of the routes that strip, each once, in order of first appearance. */
  function Parents(routes: seq<StripRoute>): seq<ParentRef> {
    if routes == [] then []
    else
      var before, last := Parents(routes[..|routes| - 1]), routes[|routes| - 1];
      if last.strip && last.parent !in before then before + [last.parent] else before
  }

  function LocalParents(ns: string, ps: seq<ParentRef>): seq<ParentRef> {
    if ps == [] then []
    else
      var before, last := LocalParents(ns, ps[..|ps| - 1]), ps[|ps| - 1];
      if SameNamespace(ns, last) then before + [last] else before
  }

  function RemoteParents(ns: string, ps: seq<ParentRef>): seq<ParentRef> {
    if ps == [] then []
    else
      var before, last := RemoteParents(ns, ps[..|ps| - 1]), ps[|ps| - 1];
      if SameNamespace(ns, last) then before else before + [last]
  }

  function Policies(gateway: string, ps: seq<ParentRef>): (r: seq<Policy>)
    ensures |r| == |ps| && forall i | 0 <= i < |ps| :: r[i] == Policy(PolicyName(gateway, ps[i]), TargetOf(ps[i]))
  {
    seq(|ps|, i requires 0 <= i < |ps| => Policy(PolicyName(gateway, ps[i]), TargetOf(ps[i])))
  }

  function PlanOf(key: GatewayKey, manage: bool, routes: seq<StripRoute>): Plan {
    if !manage then Plan([], Disabled, [])
    else
      var parents := Parents(routes);
      var objects := Policies(key.name, LocalParents(key.namespace, parents));
      Plan(objects, if parents == [] then Disabled else if objects != [] then Applied else SkippedCrossNamespace,
           RemoteParents(key.namespace, parents))
  }

  /** `plan_early_identity_strip`. */
  method PlanEarlyIdentityStrip(key: GatewayKey, manage: bool, routes: seq<StripRoute>) returns (plan: Plan)
    ensures plan == PlanOf(key, manage, routes)
  {
    if !manage {
      return Plan([], Disabled, []);
    }
    var parents: seq<ParentRef> := [];
    var seen: set<ParentRef> := {};
    for i := 0 to |routes|
      invariant parents == Parents(routes[..i])
      invariant forall p :: p in seen <==> p in parents
    {
      assert routes[..i + 1][..i] == routes[..i];
      if routes[i].strip && routes[i].parent !in seen {
        seen := seen + {routes[i].parent};
        parents := parents + [routes[i].parent];
      }
    }
    assert routes[..|routes|] == routes;
    if parents == [] {
      assert LocalParents(key.namespace, parents) == [] && RemoteParents(key.namespace, parents) == [];
      return Plan([], Disabled, []);
    }
    var local: seq<ParentRef> := [];
    var cross: seq<ParentRef> := [];
    for i := 0 to |parents|
      invariant local == LocalParents(key.namespace, parents[..i])
      invariant cross == RemoteParents(key.namespace, parents[..i])
    {
      assert parents[..i + 1][..i] == parents[..i];
      if !SameNamespace(key.namespace, parents[i]) {
        cross := cross + [parents[i]];
        continue;
      }
      local := local + [parents[i]];
    }
    assert parents[..|parents|] == parents;
    var objects: seq<Policy> := [];
    for i := 0 to |local|
      invariant objects == Policies(key.name, local)[..i]
    {
      var name := ListenerPolicyName(key.name, local[i]);
      objects := objects + [Policy(name, TargetOf(local[i]))];
    }
    assert objects == Policies(key.name, local);
    plan := Plan(objects, if objects != [] then Applied else SkippedCrossNamespace, cross);
  }

  // ---------------------------------------------------------------- who is covered

  lemma {:induction false} ParentsMembers(routes: seq<StripRoute>, p: ParentRef)
    ensures p in Parents(routes) <==> StripRoute(true, p) in routes
    decreases |routes|
  {
    if routes != [] {
      var n := |routes| - 1;
      ParentsMembers(routes[..n], p);
      assert routes == routes[..n] + [routes[n]];
    }
  }

  lemma {:induction false} LocalMembers(ns: string, ps: seq<ParentRef>, p: ParentRef)
    ensures p in LocalParents(ns, ps) <==> p in ps && SameNamespace(ns, p)
    decreases |ps|
  {
    if ps != [] {
      var n := |ps| - 1;
      LocalMembers(ns, ps[..n], p);
      assert ps == ps[..n] + [ps[n]];
    }
  }

  lemma {:induction false} RemoteMembers(ns: string, ps: seq<ParentRef>, p: ParentRef)
    ensures p in RemoteParents(ns, ps) <==> p in ps && !SameNamespace(ns, p)
    decreases |ps|
  {
    if ps != [] {
      var n := |ps| - 1;
      RemoteMembers(ns, ps[..n], p);
      assert ps == ps[..n] + [ps[n]];
    }
  }

  /** The cluster after the objects were applied in order: one policy per name. */
  function AppliedPolicies(objects: seq<Policy>): map<string, Target> {
    if objects == [] then map[]
    else AppliedPolicies(objects[..|objects| - 1])[objects[|objects| - 1].name := objects[|objects| - 1].target]
  }

  lemma {:induction false} LastPolicyWins(objects: seq<Policy>, i: nat)
    requires i < |objects| && forall j | i < j < |objects| :: objects[j].name != objects[i].name
    ensures objects[i].name in AppliedPolicies(objects)
    ensures AppliedPolicies(objects)[objects[i].name] == objects[i].target
    decreases |objects|
  {
    var n := |objects| - 1;
    if i < n {
      assert objects[..n][i] == objects[i];
      LastPolicyWins(objects[..n], i);
    }
  }

  /** A parent is protected after applying the plan when the policy under its name targets it. */
  ghost predicate Covered(key: GatewayKey, plan: Plan, p: ParentRef) {
    var applied := AppliedPolicies(plan.objects);
    PolicyName(key.name, p) in applied && applied[PolicyName(key.name, p)] == TargetOf(p)
  }

  /** The last of the parents that share a policy name. */
  lemma {:induction false} LastNamed(gateway: string, ps: seq<ParentRef>, i: nat) returns (last: nat)
    requires i < |ps|
    ensures i <= last < |ps| && PolicyName(gateway, ps[last]) == PolicyName(gateway, ps[i])
    ensures forall j | last < j < |ps| :: PolicyName(gateway, ps[j]) != PolicyName(gateway, ps[i])
    decreases |ps| - i
  {
    if j :| i < j < |ps| && PolicyName(gateway, ps[j]) == PolicyName(gateway, ps[i]) {
      last := LastNamed(gateway, ps, j);
    } else {
      last := i;
    }
  }

  /** Parents with one target have one policy name. */
  lemma {:induction false} TargetFixesName(gateway: string, p: ParentRef, q: ParentRef)
    requires TargetOf(p) == TargetOf(q)
    ensures PolicyName(gateway, p) == PolicyName(gateway, q)
  {
    assert NonEmpty(p.sectionName) <==> NonEmpty(q.sectionName);
    assert Raw(gateway, p) == Raw(gateway, q);
  }

  /** The policy of `ps[j]` replaces that of `ps[i]` by one with another target. */
  predicate Displaces(gateway: string, ps: seq<ParentRef>, i: nat, j: nat)
    requires i < |ps| && j < |ps|
  {
    i < j && PolicyName(gateway, ps[j]) == PolicyName(gateway, ps[i]) && TargetOf(ps[j]) != TargetOf(ps[i])
  }

  /** In terms of the last parent of the name. */
  lemma {:induction false} LastDecides(gateway: string, ps: seq<ParentRef>, i: nat, last: nat)
    requires i <= last < |ps| && PolicyName(gateway, ps[last]) == PolicyName(gateway, ps[i])
    requires forall j | last < j < |ps| :: PolicyName(gateway, ps[j]) != PolicyName(gateway, ps[i])
    ensures TargetOf(ps[last]) == TargetOf(ps[i])
       <==> forall j: nat | j < |ps| && Displaces(gateway, ps, i, j) ::
              exists m :: j < m < |ps| && TargetOf(ps[m]) == TargetOf(ps[i])
  {
    if TargetOf(ps[last]) != TargetOf(ps[i]) {
      assert Displaces(gateway, ps, i, last);
      forall m | last < m < |ps| ensures TargetOf(ps[m]) != TargetOf(ps[i]) {
        if TargetOf(ps[m]) == TargetOf(ps[i]) { TargetFixesName(gateway, ps[m], ps[i]); }
      }
    } else {
      forall j: nat | j < |ps| && Displaces(gateway, ps, i, j)
        ensures j < last && TargetOf(ps[last]) == TargetOf(ps[i])
      {
      }
    }
  }

  /** Exactly which strip requests are honoured before authentication: a parent in the gateway's own namespace is
      covered if and only if every later parent with its policy name and another target is itself followed by one
      with this parent's target. */
  lemma {:induction false} CoveredIff(key: GatewayKey, routes: seq<StripRoute>, i: nat)
    requires i < |LocalParents(key.namespace, Parents(routes))|
    ensures var ps := LocalParents(key.namespace, Parents(routes));
            (Covered(key, PlanOf(key, true, routes), ps[i])
             <==> forall j: nat | j < |ps| && Displaces(key.name, ps, i, j) ::
                    exists m :: j < m < |ps| && TargetOf(ps[m]) == TargetOf(ps[i]))
  {
    var ps := LocalParents(key.namespace, Parents(routes));
    var objects := Policies(key.name, ps);
    var last := LastNamed(key.name, ps, i);
    assert forall j | 0 <= j < |ps| :: objects[j].name == PolicyName(key.name, ps[j]);
    LastPolicyWins(objects, last);
    LastDecides(key.name, ps, i, last);
  }

  /** In particular a parent is covered when no later one takes its policy name for another target. */
  lemma {:induction false} CoveredUnlessDisplaced(key: GatewayKey, routes: seq<StripRoute>, i: nat)
    requires i < |LocalParents(key.namespace, Parents(routes))|
    requires var ps := LocalParents(key.namespace, Parents(routes));
             forall j: nat | j < |ps| :: !Displaces(key.name, ps, i, j)
    ensures Covered(key, PlanOf(key, true, routes), LocalParents(key.namespace, Parents(routes))[i])
  {
    CoveredIff(key, routes, i);
  }

  lemma {:induction false} PolicyOf(gateway: string, ps: seq<ParentRef>, p: ParentRef)
    ensures Policy(PolicyName(gateway, p), TargetOf(p)) in Policies(gateway, ps)
       <==> exists q :: q in ps && TargetOf(q) == TargetOf(p)
  {
    var objects := Policies(gateway, ps);
    if q :| q in ps && TargetOf(q) == TargetOf(p) {
      var i :| 0 <= i < |ps| && ps[i] == q;
      TargetFixesName(gateway, p, q);
      assert objects[i] == Policy(PolicyName(gateway, p), TargetOf(p));
    }
    if Policy(PolicyName(gateway, p), TargetOf(p)) in objects {
      var i :| 0 <= i < |objects| && objects[i] == Policy(PolicyName(gateway, p), TargetOf(p));
      assert ps[i] in ps && TargetOf(ps[i]) == TargetOf(p);
    }
  }

  /** No strip request is forgotten: every parent of a stripping route gets its object or is reported as living
      in another namespace, whichever of the two it is, and nothing else is planned or reported. */
  lemma {:induction false} EveryRequestAccounted(key: GatewayKey, routes: seq<StripRoute>, p: ParentRef)
    ensures var plan := PlanOf(key, true, routes);
            && (Policy(PolicyName(key.name, p), TargetOf(p)) in plan.objects
                <==> exists q ::
                       StripRoute(true, q) in routes && SameNamespace(key.namespace, q) && TargetOf(q) == TargetOf(p))
            && (p in plan.skipped <==> StripRoute(true, p) in routes && !SameNamespace(key.namespace, p))
            && (StripRoute(true, p) in routes ==>
                plan.phase == if plan.objects != [] then Applied else SkippedCrossNamespace)
  {
    var ps := LocalParents(key.namespace, Parents(routes));
    forall q ensures q in ps <==> StripRoute(true, q) in routes && SameNamespace(key.namespace, q) {
      ParentsMembers(routes, q);
      LocalMembers(key.namespace, Parents(routes), q);
    }
    ParentsMembers(routes, p);
    RemoteMembers(key.namespace, Parents(routes), p);
    PolicyOf(key.name, ps, p);
  }

  // ---------------------------------------------------------------- inputs

  /** Stripping routes with the given parents. */
  function Strips(ps: seq<ParentRef>): seq<StripRoute> {
    if ps == [] then [] else Strips(ps[..|ps| - 1]) + [StripRoute(true, ps[|ps| - 1])]
  }

  ghost predicate DistinctLocal(ns: string, ps: seq<ParentRef>) {
    forall i | 0 <= i < |ps| :: SameNamespace(ns, ps[i]) && ps[i] !in ps[..i]
  }

  lemma {:induction false} ParentsSnoc(routes: seq<StripRoute>, p: ParentRef)
    requires p !in Parents(routes)
    ensures Parents(routes + [StripRoute(true, p)]) == Parents(routes) + [p]
  {
    assert (routes + [StripRoute(true, p)])[..|routes|] == routes;
  }

  lemma {:induction false} LocalSnoc(ns: string, ps: seq<ParentRef>, p: ParentRef)
    requires SameNamespace(ns, p)
    ensures LocalParents(ns, ps + [p]) == LocalParents(ns, ps) + [p]
  {
    assert (ps + [p])[..|ps|] == ps;
  }

  /** Different local parents each get their policy, in order. */
  lemma {:induction false} AllPlanned(ns: string, ps: seq<ParentRef>)
    requires DistinctLocal(ns, ps)
    ensures Parents(Strips(ps)) == ps && LocalParents(ns, ps) == ps
    decreases |ps|
  {
    if ps != [] {
      var front, p := ps[..|ps| - 1], ps[|ps| - 1];
      assert DistinctLocal(ns, front) by {
        assert forall i | 0 <= i < |front| :: front[..i] == ps[..i] && front[i] == ps[i];
      }
      AllPlanned(ns, front);
      ParentsSnoc(Strips(front), p);
      LocalSnoc(ns, front, p);
      assert ps == front + [p];
    }
  }

  /** Two parents of one cluster for which the second policy silently replaces the first. */
  lemma {:induction false} CollidingParentsLoseOne(key: GatewayKey, parent: string, section: string)
    requires section != ""
    ensures var a, b := ParentRef(parent, None, Some(section)), ParentRef(parent + "-" + section, None, None);
            var plan := PlanOf(key, true, Strips([a, b]));
            plan.phase == Applied && !Covered(key, plan, a) && Covered(key, plan, b)
  {
    var a, b := ParentRef(parent, None, Some(section)), ParentRef(parent + "-" + section, None, None);
    AllPlanned(key.namespace, [a, b]);
    PolicyNamesCollide(key.name, parent, section);
    CoveredIff(key, Strips([a, b]), 0);
    CoveredIff(key, Strips([a, b]), 1);
    assert Displaces(key.name, [a, b], 0, 1);
  }

  /** One parent written with and without its own namespace gives one policy twice, and is covered either way. */
  lemma {:induction false} OwnNamespaceSpelledOut(key: GatewayKey, parent: string, section: Option<string>)
    requires key.namespace != ""
    ensures var a, b := ParentRef(parent, None, section), ParentRef(parent, Some(key.namespace), section);
            var plan := PlanOf(key, true, Strips([a, b]));
            && |plan.objects| == 2 && plan.objects[0] == plan.objects[1]
            && Covered(key, plan, a) && Covered(key, plan, b)
  {
    var a, b := ParentRef(parent, None, section), ParentRef(parent, Some(key.namespace), section);
    AllPlanned(key.namespace, [a, b]);
    assert TargetOf(a) == TargetOf(b);
    TargetFixesName(key.name, a, b);
    CoveredIff(key, Strips([a, b]), 0);
    CoveredIff(key, Strips([a, b]), 1);
  }

  /** Named once more after the collision, the first parent is covered again. */
  lemma {:induction false} SpelledAgainIsCovered(key: GatewayKey, parent: string, section: string)
    requires section != "" && key.namespace != ""
    ensures var a, b := ParentRef(parent, None, Some(section)), ParentRef(parent + "-" + section, None, None);
            var again := ParentRef(parent, Some(key.namespace), Some(section));
            Displaces(key.name, [a, b, again], 0, 1) && Covered(key, PlanOf(key, true, Strips([a, b, again])), a)
  {
    var a, b := ParentRef(parent, None, Some(section)), ParentRef(parent + "-" + section, None, None);
    var again := ParentRef(parent, Some(key.namespace), Some(section));
    AllPlanned(key.namespace, [a, b, again]);
    PolicyNamesCollide(key.name, parent, section);
    assert TargetOf([a, b, again][2]) == TargetOf(a);
    CoveredIff(key, Strips([a, b, again]), 0);
  }
}
