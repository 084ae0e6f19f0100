/** The plan of early identity stripping, spelled out: which parents it lists, in which order, for which target,
    and under which name. */
module EarlyStripMeaning {
  import opened Common
  import opened EarlyStrip

  // ---------------------------------------------------------------- policy names

  /** A small letter or a digit. */
  predicate Plain(c: char) {
    'a' <= c <= 'z' || '0' <= c <= '9'
  }

  function Small(c: char): char {
    if 'A' <= c <= 'Z' then (c as int - 'A' as int + 'a' as int) as char else c
  }

  function InSmall(s: string): (r: string) {
    seq(|s|, i requires 0 <= i < |s| => Small(s[i]))
  }

  function Ended(run: string): seq<string> {
    if run == [] then [] else [run]
  }

  /** The longest runs of letters and digits in a text; `run` is the one being read. */
  function Runs(s: string, run: string): seq<string> {
    if s == [] then Ended(run)
    else if Plain(s[0]) then Runs(s[1..], run + [s[0]])
    else Ended(run) + Runs(s[1..], [])
  }

  function Dashed(runs: seq<string>): string {
    if runs == [] then [] else if |runs| == 1 then runs[0] else runs[0] + "-" + Dashed(runs[1..])
  }

  /** The text a policy is named after: gateway, the words identity-strip, parent and section, if there is one. */
  function NameText(gateway: string, p: ParentRef): string {
    if p.sectionName == None || p.sectionName == Some("") then gateway + "-identity-strip-" + p.name
    else gateway + "-identity-strip-" + p.name + "-" + p.sectionName.value
  }

  /** Its runs joined by single dashes. */
  function FullName(gateway: string, p: ParentRef): string {
    Dashed(Runs(InSmall(NameText(gateway, p)), []))
  }

  predicate NoCapitals(s: string) {
    forall i | 0 <= i < |s| :: !('A' <= s[i] <= 'Z')
  }

  predicate AllPlain(s: string) {
    forall i | 0 <= i < |s| :: Plain(s[i])
  }

  lemma {:induction false} NoLeadingDash(s: string)
    ensures Clean(s, true) == [] || Clean(s, true)[0] != '-'
  {
    if s != [] { NoLeadingDash(s[1..]); }
  }

  lemma {:induction false} DropEndOf(front: string, s: string)
    requires front != [] && front[|front| - 1] != '-'
    ensures DropEndDashes(front + "-" + s) == if DropEndDashes(s) == [] then front else front + "-" + DropEndDashes(s)
    decreases |s|
  {
    var t := front + "-" + s;
    if s == [] {
      assert t[..|t| - 1] == front;
    } else if s[|s| - 1] == '-' {
      assert t[..|t| - 1] == front + "-" + s[..|s| - 1];
      DropEndOf(front, s[..|s| - 1]);
    }
  }

  lemma {:induction false} RunsAreThere(s: string, run: string)
    requires AllPlain(run)
    ensures forall r | r in Runs(s, run) :: r != [] && AllPlain(r)
    decreases |s|
  {
    if s == [] {
    } else if Plain(s[0]) {
      RunsAreThere(s[1..], run + [s[0]]);
    } else {
      RunsAreThere(s[1..], []);
    }
  }

  /** Between runs, with the dash already written. */
  lemma {:induction false} CleanBetween(s: string)
    requires NoCapitals(s)
    ensures DropEndDashes(Clean(s, true)) == Dashed(Runs(s, []))
    decreases |s|, 0
  {
    if s != [] {
      if Plain(s[0]) {
        CleanInside(s[1..], [s[0]]);
        assert [] + [s[0]] == [s[0]];
      } else {
        CleanBetween(s[1..]);
        assert Ended([]) + Runs(s[1..], []) == Runs(s[1..], []);
      }
    }
  }

  /** Inside a run. */
  lemma {:induction false} CleanInside(s: string, run: string)
    requires NoCapitals(s) && run != [] && AllPlain(run)
    ensures DropEndDashes(run + Clean(s, false)) == Dashed(Runs(s, run))
    decreases |s|, 1
  {
    if s == [] {
      assert run + Clean(s, false) == run && Dashed([run]) == run;
    } else if Plain(s[0]) {
      CleanInside(s[1..], run + [s[0]]);
      assert run + Clean(s, false) == (run + [s[0]]) + Clean(s[1..], false);
    } else {
      CleanBetween(s[1..]);
      RunEnds(run, s[1..]);
    }
  }

  lemma {:induction false} RunEnds(run: string, s: string)
    requires run != [] && AllPlain(run) && DropEndDashes(Clean(s, true)) == Dashed(Runs(s, []))
    ensures DropEndDashes(run + ("-" + Clean(s, true))) == Dashed([run] + Runs(s, []))
  {
    var rest := Clean(s, true);
    DropEndOf(run, rest);
    assert run + ("-" + rest) == run + "-" + rest;
    DashedFront(run, Runs(s, []), s);
  }

  lemma {:induction false} DashedFront(run: string, rest: seq<string>, s: string)
    requires rest == Runs(s, [])
    ensures Dashed([run] + rest) == if Dashed(rest) == [] then run else run + "-" + Dashed(rest)
    ensures Dashed(rest) == [] <==> rest == []
  {
    RunsAreThere(s, []);
    if rest != [] {
      assert rest[0] in rest;
      assert ([run] + rest)[1..] == rest;
    }
  }

  lemma {:induction false} DropFront(s: string)
    requires NoCapitals(s)
    ensures DropDashes(Clean(s, false)) == Clean(s, true)
  {
    NoLeadingDash(s);
    if s != [] && !Plain(s[0]) {
      NoLeadingDash(s[1..]);
      assert ("-" + Clean(s[1..], true))[1..] == Clean(s[1..], true);
    }
  }

  lemma {:induction false} LowerIs(s: string)
    ensures Lower(s) == InSmall(s) && NoCapitals(Lower(s))
  {
  }

  /** A policy is named by the runs of letters and digits of its text, in small letters, joined by single dashes and cut
      after 253 characters. */
  lemma {:induction false} PolicyNameIs(gateway: string, p: ParentRef)
    ensures var full := FullName(gateway, p);
            PolicyName(gateway, p) == if |full| <= 253 then full else full[..253]
  {
    var text := NameText(gateway, p);
    assert gateway + "-identity-strip-" == gateway + "-" + "identity-strip" + "-";
    assert Raw(gateway, p) == text;
    LowerIs(text);
    DropFront(Lower(text));
    CleanBetween(Lower(text));
  }

  /** Kubernetes takes a name that begins and ends with a letter or digit and has only those, dashes and dots
      between. */
  predicate LegalName(s: string) {
    && 0 < |s| <= 253 && Plain(s[0]) && Plain(s[|s| - 1])
    && forall i | 0 <= i < |s| :: Plain(s[i]) || s[i] == '-' || s[i] == '.'
  }

  lemma {:induction false} DashedShape(runs: seq<string>)
    requires runs != [] && forall r | r in runs :: r != [] && AllPlain(r)
    ensures var s := Dashed(runs);
            && s != [] && Plain(s[0]) && Plain(s[|s| - 1])
            && forall i | 0 <= i < |s| :: Plain(s[i]) || s[i] == '-'
  {
    assert runs[0] in runs;
    if |runs| > 1 {
      assert forall r | r in runs[1..] :: r in runs;
      DashedShape(runs[1..]);
    }
  }

  lemma {:induction false} SomethingIsThere(s: string, run: string, i: nat)
    requires i < |s| && Plain(s[i])
    ensures Runs(s, run) != []
    decreases |s|
  {
    if Plain(s[0]) {
      RunGoesOn(s[1..], run + [s[0]]);
    } else {
      assert s[1..][i - 1] == s[i];
      SomethingIsThere(s[1..], [], i - 1);
    }
  }

  lemma {:induction false} RunGoesOn(s: string, run: string)
    requires run != []
    ensures Runs(s, run) != []
    decreases |s|
  {
    if s != [] && Plain(s[0]) { RunGoesOn(s[1..], run + [s[0]]); }
  }

  /** The cut can leave a dash at the end, and then the name is refused: a policy name is legal exactly when its
      full text is short enough or has no dash at the place where the cut ends. */
  lemma {:induction false} PolicyNameIsLegalIff(gateway: string, p: ParentRef)
    ensures LegalName(PolicyName(gateway, p)) <==> |FullName(gateway, p)| <= 253 || FullName(gateway, p)[252] != '-'
  {
    PolicyNameIs(gateway, p);
    var text := NameText(gateway, p);
    var small := InSmall(text);
    assert text[|gateway| + 1] == 'i' && Plain(small[|gateway| + 1]);
    SomethingIsThere(small, [], |gateway| + 1);
    RunsAreThere(small, []);
    DashedShape(Runs(small, []));
  }

  /** Runs already joined by single dashes. */
  predicate Tidy(s: string) {
    && s != [] && Plain(s[0]) && Plain(s[|s| - 1])
    && (forall i | 0 <= i < |s| :: Plain(s[i]) || s[i] == '-')
    && forall i | 0 <= i < |s| - 1 :: s[i] != '-' || s[i + 1] != '-'
  }

  lemma {:induction false} TidyJoin(a: string, b: string)
    requires Tidy(a) && Tidy(b)
    ensures Tidy(a + "-" + b)
  {
  }

  lemma {:induction false} CleanTidy(s: string, prevDash: bool)
    requires s != [] ==> Plain(s[|s| - 1]) && (prevDash ==> Plain(s[0]))
    requires forall i | 0 <= i < |s| :: Plain(s[i]) || s[i] == '-'
    requires forall i | 0 <= i < |s| - 1 :: s[i] != '-' || s[i + 1] != '-'
    ensures Clean(s, prevDash) == s
  {
    if s != [] {
      forall i | 0 <= i < |s| - 2 ensures s[1..][i] != '-' || s[1..][i + 1] != '-' {
        assert s[i + 1] != '-' || s[i + 2] != '-';
      }
      assert |s| > 1 ==> s[0] != '-' || s[1] != '-';
      CleanTidy(s[1..], s[0] == '-');
    }
  }

  lemma {:induction false} TidyStays(s: string)
    requires Tidy(s)
    ensures Dashed(Runs(InSmall(s), [])) == s
  {
    assert InSmall(s) == s;
    CleanTidy(s, true);
    CleanBetween(s);
  }

  /** A dash behind 252 tidy characters is where the cut ends. */
  lemma {:induction false} DashAtTheCut(gateway: string, p: ParentRef, a: string, b: string)
    requires Tidy(a) && Tidy(b) && |a| == 252 && NameText(gateway, p) == a + "-" + b
    ensures !LegalName(PolicyName(gateway, p))
  {
    var text := a + "-" + b;
    TidyJoin(a, b);
    TidyStays(text);
    assert text[252] == '-' && |text| > 253;
    PolicyNameIsLegalIff(gateway, p);
  }

  lemma {:induction false} TidyFront(long: string)
    requires Tidy(long)
    ensures Tidy("g-identity-strip-" + long)
  {
    TidyJoin("g-identity-strip", long);
    assert "g-identity-strip" + "-" == "g-identity-strip-";
  }

  /** Such a name: gateway `g` with a parent of 237 characters and a dash before the last one. */
  lemma {:induction false} PolicyNameEndsInDash(long: string)
    requires |long| == 235 && AllPlain(long)
    ensures !LegalName(PolicyName("g", ParentRef(long + "-b", None, None)))
  {
    TidyFront(long);
    var front := "g-identity-strip-" + long;
    var p := ParentRef(long + "-b", None, None);
    assert "g" + "-identity-strip-" == "g-identity-strip-";
    assert NameText("g", p) == front + "-" + "b";
    DashAtTheCut("g", p, front, "b");
  }

  // ---------------------------------------------------------------- the plan

  /** The parent names no namespace, or the gateway's own. */
  predicate Local(ns: string, p: ParentRef) {
    p.namespace == None || p.namespace == Some("") || p.namespace == Some(ns)
  }

  /** A policy's target: the parent by name, a listener of it when a section is named. */
  predicate TargetIs(p: ParentRef, t: Target) {
    t.name == p.name && t.section == if p.sectionName == Some("") then None else p.sectionName
  }

  /** `q` asks for stripping earlier than `p` does. */
  ghost predicate AsksFirst(routes: seq<StripRoute>, q: ParentRef, p: ParentRef) {
    exists i :: 0 <= i < |routes| && routes[i] == StripRoute(true, q)
                && forall j | 0 <= j <= i :: routes[j] != StripRoute(true, p)
  }

  /** `ps` lists the parents that ask for stripping and are local (or are not), each once, first asked first. */
  ghost predicate Lists(routes: seq<StripRoute>, ns: string, local: bool, ps: seq<ParentRef>) {
    && (forall p :: p in ps <==> StripRoute(true, p) in routes && Local(ns, p) == local)
    && forall i, j | 0 <= i < j < |ps| :: AsksFirst(routes, ps[i], ps[j])
  }

  lemma {:induction false} AsksFirstMore(routes: seq<StripRoute>, r: StripRoute, q: ParentRef, p: ParentRef)
    requires AsksFirst(routes, q, p)
    ensures AsksFirst(routes + [r], q, p)
  {
    var i :| 0 <= i < |routes| && routes[i] == StripRoute(true, q)
             && forall j | 0 <= j <= i :: routes[j] != StripRoute(true, p);
    assert (routes + [r])[i] == StripRoute(true, q);
  }

  lemma {:induction false} NewcomerAsksLast(routes: seq<StripRoute>, q: ParentRef, p: ParentRef)
    requires StripRoute(true, q) in routes && StripRoute(true, p) !in routes
    ensures AsksFirst(routes + [StripRoute(true, p)], q, p)
  {
    var i :| 0 <= i < |routes| && routes[i] == StripRoute(true, q);
    assert (routes + [StripRoute(true, p)])[i] == StripRoute(true, q);
  }

  lemma {:induction false} ParentsInOrder(routes: seq<StripRoute>)
    ensures forall i, j | 0 <= i < j < |Parents(routes)| :: AsksFirst(routes, Parents(routes)[i], Parents(routes)[j])
  {
    if routes != [] {
      var front, last := routes[..|routes| - 1], routes[|routes| - 1];
      ParentsInOrder(front);
      assert routes == front + [last];
      var before, ps := Parents(front), Parents(routes);
      forall i, j | 0 <= i < j < |ps| ensures AsksFirst(routes, ps[i], ps[j]) {
        if j < |before| {
          AsksFirstMore(front, last, ps[i], ps[j]);
        } else {
          ParentsMembers(front, ps[i]);
          ParentsMembers(front, ps[j]);
          NewcomerAsksLast(front, ps[i], ps[j]);
        }
      }
    }
  }

  /** `b` is `a` with some elements left out. */
  ghost predicate Within(a: seq<ParentRef>, b: seq<ParentRef>, at: seq<nat>) {
    && |at| == |b| && (forall i | 0 <= i < |b| :: at[i] < |a| && a[at[i]] == b[i])
    && forall i, j | 0 <= i < j < |b| :: at[i] < at[j]
  }

  lemma {:induction false} SplitWithin(ns: string, ps: seq<ParentRef>) returns (local: seq<nat>, remote: seq<nat>)
    ensures Within(ps, LocalParents(ns, ps), local) && Within(ps, RemoteParents(ns, ps), remote)
    decreases |ps|
  {
    local, remote := [], [];
    if ps != [] {
      var n := |ps| - 1;
      local, remote := SplitWithin(ns, ps[..n]);
      if SameNamespace(ns, ps[n]) { local := local + [n]; } else { remote := remote + [n]; }
    }
  }

  lemma {:induction false} PartsInOrder(key: GatewayKey, routes: seq<StripRoute>)
    ensures Lists(routes, key.namespace, true, LocalParents(key.namespace, Parents(routes)))
    ensures Lists(routes, key.namespace, false, RemoteParents(key.namespace, Parents(routes)))
  {
    var all := Parents(routes);
    ParentsInOrder(routes);
    var local, remote := SplitWithin(key.namespace, all);
    forall p ensures p in all <==> StripRoute(true, p) in routes
             ensures p in LocalParents(key.namespace, all) <==> p in all && SameNamespace(key.namespace, p)
             ensures p in RemoteParents(key.namespace, all) <==> p in all && !SameNamespace(key.namespace, p)
             ensures SameNamespace(key.namespace, p) == Local(key.namespace, p)
    {
      ParentsMembers(routes, p);
      LocalMembers(key.namespace, all, p);
      RemoteMembers(key.namespace, all, p);
    }
  }

  /** The whole plan: one policy per local parent that asks, in the order of asking, aimed at that parent under its own
      policy name; the other parents that ask are reported in that order; nothing when the gateway does not manage
      policies. */
  lemma {:induction false} PlanIs(key: GatewayKey, manage: bool, routes: seq<StripRoute>) returns (ps: seq<ParentRef>)
    ensures var plan := PlanOf(key, manage, routes);
            if !manage then plan.objects == [] && plan.skipped == [] && plan.phase == Disabled
            else
              && Lists(routes, key.namespace, true, ps) && Lists(routes, key.namespace, false, plan.skipped)
              && |plan.objects| == |ps|
              && (forall i | 0 <= i < |ps| :: plan.objects[i].name == PolicyName(key.name, ps[i])
                                              && TargetIs(ps[i], plan.objects[i].target))
              && (plan.phase == Applied <==> ps != [])
              && (plan.phase == SkippedCrossNamespace <==> ps == [] && plan.skipped != [])
  {
    ps := LocalParents(key.namespace, Parents(routes));
    PartsInOrder(key, routes);
    var plan := PlanOf(key, manage, routes);
    if manage && plan.skipped != [] {
      RemoteMembers(key.namespace, Parents(routes), plan.skipped[0]);
    }
    if manage && Parents(routes) != [] {
      var p := Parents(routes)[0];
      LocalMembers(key.namespace, Parents(routes), p);
      RemoteMembers(key.namespace, Parents(routes), p);
    }
  }
}
