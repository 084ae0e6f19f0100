/** What the merged modifier does to a request's headers, for every header map and whatever order
    a gateway applies the three parts in. */
module HeaderMeaning {
  import opened Common
  import opened HeaderFilters

  /** Values per lower-case header name. */
  type Headers = map<string, seq<string>>

  function SetOne(h: Headers, item: Named): Headers {
    h[Lower(item.name) := [item.value]]
  }

  function AddOne(h: Headers, item: Named): Headers {
    var k := Lower(item.name);
    h[k := (if k in h then h[k] else []) + [item.value]]
  }

  /** Applying sets one after the other. */
  function ApplySets(h: Headers, items: seq<Named>): Headers {
    if items == [] then h else SetOne(ApplySets(h, items[..|items| - 1]), items[|items| - 1])
  }

  function ApplyAdds(h: Headers, items: seq<Named>): Headers {
    if items == [] then h else AddOne(ApplyAdds(h, items[..|items| - 1]), items[|items| - 1])
  }

  function ApplyRemoves(h: Headers, names: seq<string>): Headers {
    h - Keys(names)
  }

  datatype Part = Removes | Sets | Adds

  function ApplyPart(h: Headers, f: Filter, part: Part): Headers
    requires f.Modifier?
  {
    match part
    case Removes => ApplyRemoves(h, f.remove)
    case Sets => ApplySets(h, f.sets)
    case Adds => ApplyAdds(h, f.adds)
  }

  function ApplyParts(h: Headers, f: Filter, order: seq<Part>): Headers
    requires f.Modifier?
    decreases |order|
  {
    if order == [] then h else ApplyParts(ApplyPart(h, f, order[0]), f, order[1..])
  }

  /** The gateway is free to choose any order of the three parts. */
  ghost predicate SomeOrder(order: seq<Part>) {
    multiset(order) == multiset{Removes, Sets, Adds}
  }

  /** A request runs through all filters of a route; filters that are passed on do not touch request headers. */
  function Run(h: Headers, fs: seq<Filter>, order: seq<Part>): Headers
    decreases |fs|
  {
    if fs == [] then h
    else Run(if fs[0].Modifier? then ApplyParts(h, fs[0], order) else h, fs[1..], order)
  }

  // ---------------------------------------------------------------- one header at a time

  ghost predicate SameAt(a: Headers, b: Headers, k: string) {
    (k in a <==> k in b) && (k in a ==> a[k] == b[k])
  }

  lemma {:induction false} SetsAt(h: Headers, items: seq<Named>, k: string)
    ensures LastOf(items, k).None? ==> SameAt(ApplySets(h, items), h, k)
    ensures LastOf(items, k).Some? ==>
              k in ApplySets(h, items) && ApplySets(h, items)[k] == [LastOf(items, k).value.value]
    decreases |items|
  {
    if items != [] {
      SetsAt(h, items[..|items| - 1], k);
    }
  }

  lemma {:induction false} AddsAt(h: Headers, items: seq<Named>, k: string)
    requires k !in Keys(NamesOf(items))
    ensures SameAt(ApplyAdds(h, items), h, k)
    decreases |items|
  {
    if items != [] {
      var before, last := items[..|items| - 1], items[|items| - 1];
      assert NamesOf(items) == NamesOf(before) + [last.name];
      KeysSnoc(NamesOf(before), last.name);
      AddsAt(h, before, k);
    }
  }

  lemma {:induction false} LastOfDeduped(items: seq<Named>, k: string)
    ensures LastOf(DedupeNamed(items), k) == LastOf(items, k)
    ensures Keys(NamesOf(DedupeNamed(items))) == Keys(NamesOf(items))
  {
    var names := DedupeNames(NamesOf(items));
    var d := DedupeNamed(items);
    DedupeKeys(NamesOf(items));
    forall i | 0 <= i < |d| ensures LastOf(items, Lower(names[i])) == Some(d[i]) &&
        Lower(d[i].name) == Lower(names[i]) {
      assert names[i] in names;
      LastOfFound(items, Lower(names[i]));
    }
    assert LowerAll(NamesOf(d)) == LowerAll(names);
    SameKeys(NamesOf(d), names);
    LastOfFound(items, k);
    LastOfFound(d, k);
    if k in Keys(names) {
      var i :| 0 <= i < |names| && Lower(names[i]) == k;
      LastOfUnique(d, i);
    }
  }

  lemma {:induction false} SameKeys(a: seq<string>, b: seq<string>)
    requires LowerAll(a) == LowerAll(b)
    ensures Keys(a) == Keys(b)
  {
    assert |LowerAll(a)| == |a| && |LowerAll(b)| == |b|;
    assert forall i | 0 <= i < |a| :: Lower(a[i]) == LowerAll(a)[i] == LowerAll(b)[i] == Lower(b[i]);
  }

  /** When no name repeats, the last item of a name is the only one. */
  lemma {:induction false} LastOfUnique(items: seq<Named>, i: nat)
    requires i < |items|
    requires forall p, q | 0 <= p < q < |items| :: Lower(items[p].name) != Lower(items[q].name)
    ensures LastOf(items, Lower(items[i].name)) == Some(items[i])
    decreases |items|
  {
    if i < |items| - 1 {
      assert items[..|items| - 1][i] == items[i];
      LastOfUnique(items[..|items| - 1], i);
    }
  }

  /** The deduplicated `set` list acts like applying every set in order, for every header map. */
  lemma {:induction false} DedupedSetsActAlike(h: Headers, items: seq<Named>)
    ensures ApplySets(h, DedupeNamed(items)) == ApplySets(h, items)
  {
    var a, b := ApplySets(h, DedupeNamed(items)), ApplySets(h, items);
    forall k ensures SameAt(a, b, k) {
      LastOfDeduped(items, k);
      SetsAt(h, DedupeNamed(items), k);
      SetsAt(h, items, k);
    }
    assert forall k | k in a :: k in b && a[k] == b[k] by {
      forall k | k in a ensures k in b && a[k] == b[k] { assert SameAt(a, b, k); }
    }
    assert forall k | k in b :: k in a by {
      forall k | k in b ensures k in a { assert SameAt(a, b, k); }
    }
  }

  /** The deduplicated `remove` list removes exactly what the full one does. */
  lemma {:induction false} DedupedRemovesActAlike(h: Headers, names: seq<string>)
    ensures ApplyRemoves(h, DedupeNames(names)) == ApplyRemoves(h, names)
  {
    DedupeKeys(names);
  }

  // ---------------------------------------------------------------- the modifier, header by header

  /** A header that no part names is left as it was. */
  lemma {:induction false} UntouchedAt(h: Headers, f: Filter, order: seq<Part>, k: string)
    requires f.Modifier?
    requires k !in Keys(f.remove) && k !in Keys(NamesOf(f.sets)) && k !in Keys(NamesOf(f.adds))
    ensures SameAt(ApplyParts(h, f, order), h, k)
    decreases |order|
  {
    if order != [] {
      LastOfFound(f.sets, k);
      SetsAt(h, f.sets, k);
      AddsAt(h, f.adds, k);
      UntouchedAt(ApplyPart(h, f, order[0]), f, order[1..], k);
    }
  }

  /** A header that is only removed is gone afterwards, in any order. */
  lemma {:induction false} RemovedAt(h: Headers, f: Filter, order: seq<Part>, k: string)
    requires f.Modifier?
    requires k in Keys(f.remove) && k !in Keys(NamesOf(f.sets)) && k !in Keys(NamesOf(f.adds))
    requires Removes in order || k !in h
    ensures k !in ApplyParts(h, f, order)
    decreases |order|
  {
    if order != [] {
      LastOfFound(f.sets, k);
      SetsAt(h, f.sets, k);
      AddsAt(h, f.adds, k);
      assert order == [order[0]] + order[1..];
      RemovedAt(ApplyPart(h, f, order[0]), f, order[1..], k);
    }
  }

  /** A header that is only set has the set value afterwards, in any order. */
  lemma {:induction false} SetAt(h: Headers, f: Filter, order: seq<Part>, k: string, v: string)
    requires f.Modifier?
    requires k !in Keys(f.remove) && k !in Keys(NamesOf(f.adds))
    requires LastOf(f.sets, k).Some? && LastOf(f.sets, k).value.value == v
    requires Sets in order || (k in h && h[k] == [v])
    ensures k in ApplyParts(h, f, order) && ApplyParts(h, f, order)[k] == [v]
    decreases |order|
  {
    if order != [] {
      SetsAt(h, f.sets, k);
      AddsAt(h, f.adds, k);
      assert order == [order[0]] + order[1..];
      SetAt(ApplyPart(h, f, order[0]), f, order[1..], k, v);
    }
  }

  // ---------------------------------------------------------------- the filter list

  lemma {:induction false} PassedOnly(extras: seq<Extra>)
    ensures forall i | 0 <= i < |Passed(extras)| :: Passed(extras)[i].Pass?
    decreases |extras|
  {
    if extras != [] {
      PassedOnly(extras[..|extras| - 1]);
    }
  }

  lemma {:induction false} RunPassed(h: Headers, fs: seq<Filter>, order: seq<Part>)
    requires forall i | 0 <= i < |fs| :: fs[i].Pass?
    ensures Run(h, fs, order) == h
    decreases |fs|
  {
    if fs != [] {
      RunPassed(h, fs[1..], order);
    }
  }

  /** A rule carries at most one request header modifier, and it comes first. */
  lemma {:induction false} AtMostOneModifier(auth: Auth, route: RouteHeaders, secret: Option<string>, inject: bool)
    ensures forall i | 0 < i < |Filters(auth, route, secret, inject)| :: Filters(auth, route, secret, inject)[i].Pass?
  {
    PassedOnly(route.extras);
  }

  function Merged(auth: Auth, route: RouteHeaders, secret: Option<string>, inject: bool): Filter {
    Modifier(DedupeNames(AllRemoves(auth, route, secret, inject)),
             DedupeNamed(AllSets(auth, route, secret, inject)),
             DedupeNamed(ExtraAdds(route.extras)))
  }

  /** Running the route's filters is applying its merged modifier; an omitted modifier is an empty one. */
  lemma {:induction false} RunIsMerged(h: Headers, auth: Auth, route: RouteHeaders, secret: Option<string>,
                                       inject: bool, order: seq<Part>)
    ensures Run(h, Filters(auth, route, secret, inject), order)
         == ApplyParts(h, Merged(auth, route, secret, inject), order)
  {
    var fs := Filters(auth, route, secret, inject);
    var m := Merge(AllRemoves(auth, route, secret, inject), AllSets(auth, route, secret, inject),
        ExtraAdds(route.extras));
    PassedOnly(route.extras);
    if m.Some? {
      assert fs[1..] == Passed(route.extras);
      RunPassed(ApplyParts(h, fs[0], order), fs[1..], order);
    } else {
      assert fs == Passed(route.extras);
      RunPassed(h, fs, order);
      EmptyModifier(h, order);
      assert Merged(auth, route, secret, inject) == Modifier([], [], []);
    }
  }

  lemma {:induction false} EmptyModifier(h: Headers, order: seq<Part>)
    ensures ApplyParts(h, Modifier([], [], []), order) == h
    decreases |order|
  {
    if order != [] {
      assert Keys([]) == {};
      assert ApplyPart(h, Modifier([], [], []), order[0]) == h;
      EmptyModifier(h, order[1..]);
    }
  }

  // ---------------------------------------------------------------- the theorem

  /** Extra filters keep away from a lower-case header name. */
  ghost predicate ExtrasAvoid(extras: seq<Extra>, k: string) {
    k !in Keys(ExtraRemoves(extras)) && k !in Keys(NamesOf(ExtraSets(extras))) && k !in Keys(NamesOf(ExtraAdds(extras)))
  }

  function HopItem(hop: Option<string>, secret: Option<string>): seq<Named> {
    if hop.Some? && secret.Some? then [Named(hop.value, secret.value)] else []
  }

  function HopAt(hop: Option<string>, secret: Option<string>, k: string): Option<Named>
    requires hop.Some? ==> secret.Some?
  {
    if hop.Some? && Lower(hop.value) == k then Some(Named(hop.value, secret.value)) else None
  }

  lemma {:induction false} HopItemAt(hop: Option<string>, secret: Option<string>, k: string)
    requires hop.Some? ==> secret.Some?
    ensures LastOf(HopItem(hop, secret), k) == HopAt(hop, secret, k)
  {
    var first := HopItem(hop, secret);
    if hop.Some? {
      assert first[..0] == [];
      assert LastOf([], k) == None;
    }
  }

  lemma {:induction false} SetsPartAt(auth: Auth, route: RouteHeaders, secret: Option<string>, inject: bool, k: string)
    requires ExtrasAvoid(route.extras, k)
    ensures LastOf(Merged(auth, route, secret, inject).sets, k)
         == HopAt(HopFor(auth, route, secret, inject), secret, k)
  {
    var hop := HopFor(auth, route, secret, inject);
    var sets := AllSets(auth, route, secret, inject);
    assert sets == HopItem(hop, secret) + ExtraSets(route.extras);
    LastOfDeduped(sets, k);
    LastOfFirst(HopItem(hop, secret), ExtraSets(route.extras), k);
    HopItemAt(hop, secret, k);
  }

  /** Where each part of the merged modifier names a header the extras avoid. */
  lemma {:induction false} MergedAt(auth: Auth, route: RouteHeaders, secret: Option<string>, inject: bool, k: string)
    requires ExtrasAvoid(route.extras, k)
    ensures var f := Merged(auth, route, secret, inject);
            var hop := HopFor(auth, route, secret, inject);
            && (k in Keys(f.remove) <==> k in Keys(StripForRoute(auth, route, inject, hop)))
            && (k in Keys(NamesOf(f.sets)) <==> hop.Some? && Lower(hop.value) == k)
            && (hop.Some? && Lower(hop.value) == k ==> LastOf(f.sets, k) == Some(Named(hop.value, secret.value)))
            && k !in Keys(NamesOf(f.adds))
  {
    var hop := HopFor(auth, route, secret, inject);
    DedupeKeys(AllRemoves(auth, route, secret, inject));
    KeysConcat(StripForRoute(auth, route, inject, hop), ExtraRemoves(route.extras));
    SetsPartAt(auth, route, secret, inject, k);
    LastOfFound(Merged(auth, route, secret, inject).sets, k);
    LastOfDeduped(ExtraAdds(route.extras), k);
  }

  lemma {:induction false} LastOfFirst(a: seq<Named>, b: seq<Named>, k: string)
    requires k !in Keys(NamesOf(b))
    ensures LastOf(a + b, k) == LastOf(a, k)
    decreases |b|
  {
    if b == [] {
      assert a + b == a;
    } else {
      var before, last := b[..|b| - 1], b[|b| - 1];
      assert NamesOf(b) == NamesOf(before) + [last.name];
      KeysSnoc(NamesOf(before), last.name);
      assert (a + b)[..|a + b| - 1] == a + before;
      LastOfFirst(a, before, k);
    }
  }

  /** Names outside the identity group. */
  lemma {:induction false} KeptAt(auth: Auth, k: string)
    ensures var kept := KeepNames(h => !IsIdentity(auth, Lower(h)), StripNames(auth));
            k in Keys(kept) <==> k in Keys(StripNames(auth)) && !IsIdentity(auth, k)
  {
    var names := StripNames(auth);
    KeepNamesKeys(h => !IsIdentity(auth, Lower(h)), names, k);
    if k in Keys(names) {
      var i :| 0 <= i < |names| && Lower(names[i]) == k;
    }
  }

  lemma {:induction false} ExceptAt(kept: seq<string>, hop: string, k: string)
    ensures k in Keys(KeepNames(h => Lower(h) != Lower(hop), kept)) <==> k in Keys(kept) && k != Lower(hop)
  {
    KeepNamesKeys(h => Lower(h) != Lower(hop), kept, k);
    if k in Keys(kept) {
      var i :| 0 <= i < |kept| && Lower(kept[i]) == k;
    }
  }

  /** Which names an injecting route strips: everything but identity headers and the hop it sets. */
  lemma {:induction false} StripAt(auth: Auth, route: RouteHeaders, secret: Option<string>, inject: bool, k: string)
    requires route.strip
    ensures var hop := HopFor(auth, route, secret, inject);
            k in Keys(StripForRoute(auth, route, inject, hop)) <==>
              && k in Keys(StripNames(auth))
              && (inject && WantsHop(auth, route) ==> !IsIdentity(auth, k) && (hop.Some? ==> k != Lower(hop.value)))
  {
    var hop := HopFor(auth, route, secret, inject);
    if inject && WantsHop(auth, route) {
      KeptAt(auth, k);
      if hop.Some? {
        assert hop.value != "" by { assert DEFAULT_HOP != ""; }
        ExceptAt(KeepNames(h => !IsIdentity(auth, Lower(h)), StripNames(auth)), hop.value, k);
      }
    }
  }

  lemma {:induction false} AllPartsOccur(order: seq<Part>)
    requires SomeOrder(order)
    ensures Removes in order && Sets in order && Adds in order
  {
    assert Removes in multiset(order) && Sets in multiset(order) && Adds in multiset(order);
  }

  /** The strip names are exactly the built-in ones and the three configured ones, case ignored. */
  lemma {:induction false} StripNamesAre(auth: Auth, k: string)
    ensures k in Keys(StripNames(auth)) <==>
            k in Keys(PUBLIC_STRIP) || k == Lower(auth.username) || k == Lower(auth.groups) || k == Lower(auth.hop)
  {
    DedupeKeys(PUBLIC_STRIP + [auth.username] + [auth.groups] + [auth.hop]);
    KeysSnoc(PUBLIC_STRIP + [auth.username] + [auth.groups], auth.hop);
    KeysSnoc(PUBLIC_STRIP + [auth.username], auth.groups);
    KeysSnoc(PUBLIC_STRIP, auth.username);
  }

  // ---------------------------------------------------------------- in terms of the settings

  /** The route is to set the hop header: it injects, and its own setting says so, or a secret is configured. */
  predicate SetsHop(auth: Auth, route: RouteHeaders, inject: bool) {
    inject && (route.inject == Some(true) || (route.inject == None && auth.hasSecret))
  }

  /** Headers that forward-auth writes for the upstream. */
  predicate ForwardAuthWrites(auth: Auth, k: string) {
    "x-authentik-" <= k || k == Lower(auth.username) || k == Lower(auth.groups)
  }

  const BUILT_IN := ["x-authentik-username", "x-authentik-groups", "x-authentik-uid", "x-authentik-name",
                     "x-authentik-email", "x-authentik-entitlements", "x-vmcp-forward-auth"]

  /** Headers that no client may send. */
  predicate ClientMayNotSend(auth: Auth, k: string) {
    k in BUILT_IN || k == Lower(auth.username) || k == Lower(auth.groups) || k == Lower(auth.hop)
  }

  function HopHeader(auth: Auth): string {
    if auth.hop == "" then "x-vmcp-forward-auth" else Lower(auth.hop)
  }

  function HopValue(auth: Auth, route: RouteHeaders, secret: Option<string>, inject: bool): string {
    if SetsHop(auth, route, inject) && secret.Some? then secret.value else ""
  }

  lemma {:induction false} KeysAre(names: seq<string>, lower: seq<string>, k: string)
    requires |names| == |lower| && forall i | 0 <= i < |names| :: Lower(names[i]) == lower[i]
    ensures k in Keys(names) <==> k in lower
  {
    if k in lower {
      var i :| 0 <= i < |lower| && lower[i] == k;
      assert Lower(names[i]) == k;
    }
  }

  lemma {:induction false} UserSpelling()
    ensures Lower("X-authentik-username") == "x-authentik-username"
    ensures Lower("X-authentik-groups") == "x-authentik-groups"
  {
  }

  lemma {:induction false} AccountSpelling()
    ensures Lower("X-authentik-uid") == "x-authentik-uid" && Lower("X-authentik-name") == "x-authentik-name"
    ensures Lower("X-authentik-email") == "x-authentik-email"
  {
  }

  lemma {:induction false} EntitlementSpelling()
    ensures Lower("X-authentik-entitlements") == "x-authentik-entitlements"
  {
  }

  lemma {:induction false} HopSpelling()
    ensures Lower("X-Vmcp-Forward-Auth") == "x-vmcp-forward-auth"
  {
  }

  lemma {:induction false} BuiltInNames(k: string)
    ensures k in Keys(PUBLIC_STRIP) <==> k in BUILT_IN
  {
    UserSpelling();
    AccountSpelling();
    EntitlementSpelling();
    HopSpelling();
    KeysAre(PUBLIC_STRIP, BUILT_IN, k);
  }

  lemma {:induction false} StrippedAt(auth: Auth, route: RouteHeaders, secret: Option<string>, inject: bool, k: string)
    ensures k in Keys(StripForRoute(auth, route, inject, HopFor(auth, route, secret, inject))) <==>
              && route.strip && ClientMayNotSend(auth, k)
              && !(SetsHop(auth, route, inject) && ForwardAuthWrites(auth, k))
              && !(HopValue(auth, route, secret, inject) != "" && k == HopHeader(auth))
  {
    if route.strip {
      BuiltInNames(k);
      StripNamesAre(auth, k);
      HopIs(auth, route, secret, inject);
      StripAt(auth, route, secret, inject, k);
    } else {
      assert Keys([]) == {};
    }
  }

  lemma {:induction false} HopIs(auth: Auth, route: RouteHeaders, secret: Option<string>, inject: bool)
    ensures WantsHop(auth, route) && inject <==> SetsHop(auth, route, inject)
    ensures HopFor(auth, route, secret, inject).Some? <==> HopValue(auth, route, secret, inject) != ""
    ensures HopFor(auth, route, secret, inject).Some? ==>
              Lower(HopFor(auth, route, secret, inject).value) == HopHeader(auth)
  {
    assert Lower(DEFAULT_HOP) == "x-vmcp-forward-auth";
  }

  /** The whole effect of a route on a request, header by header, whatever the client sent and whatever order the
      gateway applies the three parts in. A route that has a hop value sets it; a stripping route removes what no
      client may send, except what forward-auth writes when the route is to set the hop; everything else is as it
      was. */
  lemma {:induction false} RouteEffect(h: Headers, auth: Auth, route: RouteHeaders, secret: Option<string>,
                                       inject: bool, order: seq<Part>, k: string)
    requires SomeOrder(order) && ExtrasAvoid(route.extras, k)
    ensures var r, value := Run(h, Filters(auth, route, secret, inject), order), HopValue(auth, route, secret, inject);
            if value != "" && k == HopHeader(auth) then k in r && r[k] == [value]
            else if route.strip && ClientMayNotSend(auth, k)
                    && !(SetsHop(auth, route, inject) && ForwardAuthWrites(auth, k)) then k !in r
            else SameAt(r, h, k)
  {
    var f := Merged(auth, route, secret, inject);
    RunIsMerged(h, auth, route, secret, inject, order);
    MergedAt(auth, route, secret, inject, k);
    StrippedAt(auth, route, secret, inject, k);
    HopIs(auth, route, secret, inject);
    AllPartsOccur(order);
    if HopValue(auth, route, secret, inject) != "" && k == HopHeader(auth) {
      SetAt(h, f, order, k, secret.value);
    } else if k in Keys(f.remove) {
      RemovedAt(h, f, order, k);
    } else {
      UntouchedAt(h, f, order, k);
    }
  }

  /** An injecting stripping route with a secret: the hop header carries exactly the secret, every header that
      forward-auth writes is as it wrote it, and everything else that no client may send is gone. */
  lemma {:induction false} InjectingRoute(h: Headers, auth: Auth, route: RouteHeaders, secret: Option<string>,
                                          inject: bool, order: seq<Part>, k: string)
    requires SomeOrder(order) && route.strip && ExtrasAvoid(route.extras, k)
    requires SetsHop(auth, route, inject) && secret.Some? && secret.value != ""
    ensures var r := Run(h, Filters(auth, route, secret, inject), order);
            && (k == HopHeader(auth) ==> k in r && r[k] == [secret.value])
            && (k != HopHeader(auth) && ForwardAuthWrites(auth, k) ==> SameAt(r, h, k))
            && (k != HopHeader(auth) && !ForwardAuthWrites(auth, k) && ClientMayNotSend(auth, k) ==> k !in r)
  {
    RouteEffect(h, auth, route, secret, inject, order, k);
  }

  /** A stripping route that is to inject but has no secret: what forward-auth writes is untouched, everything else
      that no client may send is gone, a forged hop header included. */
  lemma {:induction false} InjectingWithoutSecret(h: Headers, auth: Auth, route: RouteHeaders, secret: Option<string>,
                                                  inject: bool, order: seq<Part>, k: string)
    requires SomeOrder(order) && route.strip && ExtrasAvoid(route.extras, k)
    requires SetsHop(auth, route, inject) && (secret == None || secret == Some(""))
    ensures var r := Run(h, Filters(auth, route, secret, inject), order);
            && (ForwardAuthWrites(auth, k) ==> SameAt(r, h, k))
            && (!ForwardAuthWrites(auth, k) && ClientMayNotSend(auth, k) ==> k !in r)
  {
    RouteEffect(h, auth, route, secret, inject, order, k);
  }

  /** A stripping route that does not inject leaves nothing that no client may send, whatever the client sent. */
  lemma {:induction false} PlainRoute(h: Headers, auth: Auth, route: RouteHeaders, secret: Option<string>,
                                      inject: bool, order: seq<Part>, k: string)
    requires SomeOrder(order) && route.strip && ExtrasAvoid(route.extras, k)
    requires !SetsHop(auth, route, inject)
    ensures ClientMayNotSend(auth, k) ==> k !in Run(h, Filters(auth, route, secret, inject), order)
  {
    RouteEffect(h, auth, route, secret, inject, order, k);
  }

  // ---------------------------------------------------------------- what the extra filters add

  /** One more item adds its own parts after those before it, or is passed on after them. */
  lemma {:induction false} ExtraSnoc(extras: seq<Extra>, e: Extra)
    ensures ExtraRemoves(extras + [e]) == ExtraRemoves(extras) + if e.Rhm? then e.remove else []
    ensures ExtraSets(extras + [e]) == ExtraSets(extras) + if e.Rhm? then e.sets else []
    ensures ExtraAdds(extras + [e]) == ExtraAdds(extras) + if e.Rhm? then e.adds else []
    ensures Passed(extras + [e]) == Passed(extras) + if e.Rhm? then [] else [Pass(e.id)]
  {
    assert (extras + [e])[..|extras|] == extras;
  }

  lemma {:induction false} NoExtras()
    ensures ExtraRemoves([]) == [] && ExtraSets([]) == [] && ExtraAdds([]) == [] && Passed([]) == []
  {
  }

  /** Two modifiers that agree on a header. */
  ghost predicate AgreeAt(f: Filter, g: Filter, k: string) {
    && f.Modifier? && g.Modifier? && f.adds == g.adds && (k in Keys(f.remove) <==> k in Keys(g.remove))
    && (LastOf(f.sets, k).Some? <==> LastOf(g.sets, k).Some?)
    && (LastOf(f.sets, k).Some? ==> LastOf(f.sets, k).value.value == LastOf(g.sets, k).value.value)
  }

  lemma {:induction false} SameAdds(a: Headers, b: Headers, items: seq<Named>, k: string)
    requires SameAt(a, b, k)
    ensures SameAt(ApplyAdds(a, items), ApplyAdds(b, items), k)
    decreases |items|
  {
    if items != [] { SameAdds(a, b, items[..|items| - 1], k); }
  }

  lemma {:induction false} AlikeAt(a: Headers, b: Headers, f: Filter, g: Filter, order: seq<Part>, k: string)
    requires SameAt(a, b, k) && AgreeAt(f, g, k)
    ensures SameAt(ApplyParts(a, f, order), ApplyParts(b, g, order), k)
    decreases |order|
  {
    if order != [] {
      SetsAt(a, f.sets, k);
      SetsAt(b, g.sets, k);
      SameAdds(a, b, f.adds, k);
      AlikeAt(ApplyPart(a, f, order[0]), ApplyPart(b, g, order[0]), f, g, order[1..], k);
    }
  }

  /** On every header that is not the route's own business the extra modifiers act as written: all their removes, all
      their sets in order, and one `add` per name. */
  lemma {:induction false} ExtrasEffect(h: Headers, auth: Auth, route: RouteHeaders, secret: Option<string>,
                                        inject: bool, order: seq<Part>, k: string)
    requires !(route.strip && ClientMayNotSend(auth, k)) && k != HopHeader(auth)
    ensures var extras := route.extras;
            var asWritten := Modifier(ExtraRemoves(extras), ExtraSets(extras), DedupeNamed(ExtraAdds(extras)));
            SameAt(Run(h, Filters(auth, route, secret, inject), order), ApplyParts(h, asWritten, order), k)
  {
    var f, extras := Merged(auth, route, secret, inject), route.extras;
    var g := Modifier(ExtraRemoves(extras), ExtraSets(extras), DedupeNamed(ExtraAdds(extras)));
    var hop := HopFor(auth, route, secret, inject);
    RunIsMerged(h, auth, route, secret, inject, order);
    StrippedAt(auth, route, secret, inject, k);
    HopIs(auth, route, secret, inject);
    DedupeKeys(AllRemoves(auth, route, secret, inject));
    KeysConcat(StripForRoute(auth, route, inject, hop), ExtraRemoves(extras));
    LastOfDeduped(AllSets(auth, route, secret, inject), k);
    assert AllSets(auth, route, secret, inject) == HopItem(hop, secret) + ExtraSets(extras);
    HopItemAt(hop, secret, k);
    LastOfSecond(HopItem(hop, secret), ExtraSets(extras), k);
    AlikeAt(h, h, f, g, order, k);
  }

  lemma {:induction false} LastOfSecond(a: seq<Named>, b: seq<Named>, k: string)
    requires LastOf(a, k).None?
    ensures LastOf(a + b, k) == LastOf(b, k)
    decreases |b|
  {
    if b == [] {
      assert a + b == a;
    } else {
      assert (a + b)[..|a + b| - 1] == a + b[..|b| - 1];
      LastOfSecond(a, b[..|b| - 1], k);
    }
  }
}
