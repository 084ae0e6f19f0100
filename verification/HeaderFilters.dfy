/** Request header filters of a route (`render_gateway_manifests.py`): strip lists, the hop secret,
    extra filters, merged into the one modifier the Gateway API allows, and what that modifier does
    to every header map. Header names are case-insensitive (section 5.1 of RFC 9110). */
module HeaderFilters {
  import opened Common

  datatype Named = Named(name: string, value: string)

  /** An item of `extraFilters`: a request header modifier, or some filter that is passed on. */
  datatype Extra = Rhm(remove: seq<string>, sets: seq<Named>, adds: seq<Named>) | Other(id: int)

  datatype Filter = Modifier(remove: seq<string>, sets: seq<Named>, adds: seq<Named>) | Pass(id: int)

  /** The Authentik settings that matter here; `hasSecret` is a configured forward-auth secret reference. */
  datatype Auth = Auth(username: string, groups: string, hop: string, hasSecret: bool)

  /** What a route says about headers. */
  datatype RouteHeaders = RouteHeaders(strip: bool, inject: Option<bool>, extras: seq<Extra>)

  const PUBLIC_STRIP := [
    "X-authentik-username", "X-authentik-groups", "X-authentik-uid", "X-authentik-name",
    "X-authentik-email", "X-authentik-entitlements", "X-Vmcp-Forward-Auth"]

  const DEFAULT_HOP := "x-vmcp-forward-auth"

  // ---------------------------------------------------------------- deduplication

  function Keys(names: seq<string>): set<string> {
    set i | 0 <= i < |names| :: Lower(names[i])
  }

  /** The first spelling of every name, in order. */
  function DedupeNames(names: seq<string>): seq<string> {
    if names == [] then []
    else
      var before, last := names[..|names| - 1], names[|names| - 1];
      DedupeNames(before) + if Lower(last) in Keys(before) then [] else [last]
  }

  lemma {:induction false} KeysSnoc(names: seq<string>, x: string)
    ensures Keys(names + [x]) == Keys(names) + {Lower(x)}
  {
    assert forall i | 0 <= i < |names| :: (names + [x])[i] == names[i];
    assert (names + [x])[|names|] == x;
    forall k | k in Keys(names) ensures k in Keys(names + [x]) {
      var i :| 0 <= i < |names| && Lower(names[i]) == k;
      assert (names + [x])[i] == names[i];
    }
  }

  lemma {:induction false} DedupeSnoc(names: seq<string>, x: string)
    ensures DedupeNames(names + [x]) == DedupeNames(names) + if Lower(x) in Keys(names) then [] else [x]
  {
    assert (names + [x])[..|names|] == names;
  }

  /** `_dedupe_header_names`. */
  method DedupeHeaderNames(names: seq<string>) returns (out: seq<string>)
    ensures out == DedupeNames(names)
  {
    var seen: set<string> := {};
    out := [];
    for i := 0 to |names|
      invariant seen == Keys(names[..i])
      invariant out == DedupeNames(names[..i])
    {
      assert names[..i + 1] == names[..i] + [names[i]];
      KeysSnoc(names[..i], names[i]);
      DedupeSnoc(names[..i], names[i]);
      var key := Lower(names[i]);
      if key in seen {
        assert out + [] == out;
        continue;
      }
      seen := seen + {key};
      out := out + [names[i]];
    }
    assert names[..|names|] == names;
  }

  function NamesOf(items: seq<Named>): (r: seq<string>)
    ensures |r| == |items| && forall i | 0 <= i < |items| :: r[i] == items[i].name
  {
    seq(|items|, i requires 0 <= i < |items| => items[i].name)
  }

  /** The last item that spells the given lower-case name. */
  function LastOf(items: seq<Named>, key: string): Option<Named> {
    if items == [] then None
    else if Lower(items[|items| - 1].name) == key then Some(items[|items| - 1])
    else LastOf(items[..|items| - 1], key)
  }

  lemma {:induction false} LastOfFound(items: seq<Named>, key: string)
    ensures LastOf(items, key).Some? <==> key in Keys(NamesOf(items))
    ensures LastOf(items, key).Some? ==> Lower(LastOf(items, key).value.name) == key
    decreases |items|
  {
    if items != [] {
      var before, last := items[..|items| - 1], items[|items| - 1];
      LastOfFound(before, key);
      assert NamesOf(items) == NamesOf(before) + [last.name];
      KeysSnoc(NamesOf(before), last.name);
    }
  }

  /** One item per name: its last value, at the place of its first appearance. */
  function DedupeNamed(items: seq<Named>): seq<Named> {
    var names := DedupeNames(NamesOf(items));
    seq(|names|, i requires 0 <= i < |names| =>
      match LastOf(items, Lower(names[i])) case Some(item) => item case None => Named(names[i], ""))
  }

  /** What the dict and the order list hold after the first items. */
  ghost predicate Indexed(items: seq<Named>, byName: map<string, Named>, order: seq<string>) {
    && byName.Keys == Keys(NamesOf(items))
    && (forall k | k in byName :: LastOf(items, k) == Some(byName[k]))
    && order == LowerAll(DedupeNames(NamesOf(items)))
  }

  lemma {:induction false} IndexOne(items: seq<Named>, item: Named, byName: map<string, Named>, order: seq<string>)
    requires Indexed(items, byName, order)
    ensures var key := Lower(item.name);
            Indexed(items + [item], byName[key := item], if key in byName then order else order + [key])
  {
    var key := Lower(item.name);
    var names := NamesOf(items);
    assert NamesOf(items + [item]) == names + [item.name];
    KeysSnoc(names, item.name);
    DedupeSnoc(names, item.name);
    LowerAllSnoc(DedupeNames(names), item.name);
    assert DedupeNames(names) + [] == DedupeNames(names);
    assert (items + [item])[..|items|] == items;
    forall k | k in byName[key := item] ensures LastOf(items + [item], k) == Some(byName[key := item][k]) {
    }
  }

  lemma {:induction false} IndexComplete(items: seq<Named>, byName: map<string, Named>, order: seq<string>)
    requires Indexed(items, byName, order)
    ensures forall i | 0 <= i < |order| :: order[i] in byName
    ensures |order| == |DedupeNamed(items)|
    ensures forall i | 0 <= i < |order| :: order[i] in byName && DedupeNamed(items)[i] == byName[order[i]]
  {
    var names := DedupeNames(NamesOf(items));
    DedupeKeys(NamesOf(items));
    forall i | 0 <= i < |order| ensures order[i] in byName && DedupeNamed(items)[i] == byName[order[i]] {
      assert names[i] in names && order[i] == Lower(names[i]);
    }
  }

  /** `_dedupe_named_headers`. */
  method DedupeNamedHeaders(items: seq<Named>) returns (out: seq<Named>)
    ensures out == DedupeNamed(items)
  {
    var byName: map<string, Named> := map[];
    var order: seq<string> := [];
    for i := 0 to |items|
      invariant Indexed(items[..i], byName, order)
    {
      var key := Lower(items[i].name);
      IndexOne(items[..i], items[i], byName, order);
      assert items[..i + 1] == items[..i] + [items[i]];
      if key !in byName {
        order := order + [key];
      }
      byName := byName[key := items[i]];
    }
    assert items[..|items|] == items;
    IndexComplete(items, byName, order);
    out := seq(|order|, i requires 0 <= i < |order| => byName[order[i]]);
  }

  function LowerAll(names: seq<string>): (r: seq<string>)
    ensures |r| == |names| && forall i | 0 <= i < |names| :: r[i] == Lower(names[i])
  {
    seq(|names|, i requires 0 <= i < |names| => Lower(names[i]))
  }

  lemma {:induction false} LowerAllSnoc(names: seq<string>, x: string)
    ensures LowerAll(names + [x]) == LowerAll(names) + [Lower(x)]
  {
  }

  /** Deduplication keeps every name and repeats none. */
  lemma {:induction false} DedupeKeys(names: seq<string>)
    ensures Keys(DedupeNames(names)) == Keys(names)
    ensures forall n | n in DedupeNames(names) :: Lower(n) in Keys(names)
    ensures forall i, j | 0 <= i < j < |DedupeNames(names)| ::
        Lower(DedupeNames(names)[i]) != Lower(DedupeNames(names)[j])
    decreases |names|
  {
    if names != [] {
      var before, last := names[..|names| - 1], names[|names| - 1];
      DedupeKeys(before);
      assert names == before + [last];
      KeysSnoc(before, last);
      KeysSnoc(DedupeNames(before), last);
      var d := DedupeNames(before);
      assert d + [] == d;
      assert Keys(before) + {Lower(last)} == Keys(names);
      assert forall i | 0 <= i < |d| :: d[i] in d && Lower(d[i]) in Keys(d);
    }
  }

  // ---------------------------------------------------------------- the strip list

  /** Everything a client may never send: the built-in names and the configured ones. */
  function StripNames(auth: Auth): seq<string> {
    DedupeNames(PUBLIC_STRIP + [auth.username] + [auth.groups] + [auth.hop])
  }

  lemma {:induction false} AbsorbKnown(names: seq<string>, x: string)
    ensures var added := if Lower(x) in Keys(names) then names else names + [x];
            DedupeNames(added) == DedupeNames(names + [x]) && Keys(added) == Keys(names + [x])
  {
    KeysSnoc(names, x);
    DedupeSnoc(names, x);
    assert DedupeNames(names) + [] == DedupeNames(names);
  }

  lemma {:induction false} AbsorbSame(a: seq<string>, b: seq<string>, x: string)
    requires DedupeNames(a) == DedupeNames(b) && Keys(a) == Keys(b)
    ensures DedupeNames(a + [x]) == DedupeNames(b + [x]) && Keys(a + [x]) == Keys(b + [x])
  {
    DedupeSnoc(a, x);
    DedupeSnoc(b, x);
    KeysSnoc(a, x);
    KeysSnoc(b, x);
  }

  /** `_identity_remove_headers`: each custom name joins the list unless a spelling of it is there. */
  method IdentityRemoveHeaders(auth: Auth) returns (remove: seq<string>)
    ensures remove == StripNames(auth)
  {
    var headers := PUBLIC_STRIP;
    var customs := [auth.username, auth.groups, auth.hop];
    ghost var plain := PUBLIC_STRIP;
    for i := 0 to 3
      invariant DedupeNames(headers) == DedupeNames(plain) && Keys(headers) == Keys(plain)
      invariant plain == PUBLIC_STRIP + customs[..i]
    {
      var custom := customs[i];
      AbsorbKnown(headers, custom);
      AbsorbSame(headers, plain, custom);
      assert customs[..i + 1] == customs[..i] + [custom];
      plain := plain + [custom];
      var known := exists h :: h in headers && Lower(h) == Lower(custom);
      assert known <==> Lower(custom) in Keys(headers) by {
        if Lower(custom) in Keys(headers) {
          var j :| 0 <= j < |headers| && Lower(headers[j]) == Lower(custom);
          assert headers[j] in headers;
        }
        if known {
          var h :| h in headers && Lower(h) == Lower(custom);
          var j :| 0 <= j < |headers| && headers[j] == h;
        }
      }
      if !known {
        headers := headers + [custom];
      }
    }
    assert plain == PUBLIC_STRIP + [auth.username] + [auth.groups] + [auth.hop];
    remove := DedupeHeaderNames(headers);
  }

  /** `wants_hop_inject`. */
  predicate WantsHop(auth: Auth, route: RouteHeaders) {
    match route.inject case Some(b) => b case None => auth.hasSecret
  }

  /** `_is_forward_auth_identity_header`, on a lower-case name. */
  predicate IsIdentity(auth: Auth, key: string) {
    StartsWith(key, "x-authentik-") || key == Lower(auth.username) || key == Lower(auth.groups)
  }

  function KeepNames(p: string -> bool, names: seq<string>): seq<string> {
    if names == [] then [] else (if p(names[0]) then [names[0]] else []) + KeepNames(p, names[1..])
  }

  lemma {:induction false} KeepNamesKeys(p: string -> bool, names: seq<string>, key: string)
    ensures key in Keys(KeepNames(p, names)) <==> exists i :: 0 <= i < |names| && p(names[i]) && Lower(names[i]) == key
    decreases |names|
  {
    if names != [] {
      KeepNamesKeys(p, names[1..], key);
      var head := if p(names[0]) then [names[0]] else [];
      KeysConcat(head, KeepNames(p, names[1..]));
      if exists i :: 0 <= i < |names[1..]| && p(names[1..][i]) && Lower(names[1..][i]) == key {
        var i :| 0 <= i < |names[1..]| && p(names[1..][i]) && Lower(names[1..][i]) == key;
        assert p(names[i + 1]) && Lower(names[i + 1]) == key;
      }
      if exists i :: 0 <= i < |names| && p(names[i]) && Lower(names[i]) == key {
        var i :| 0 <= i < |names| && p(names[i]) && Lower(names[i]) == key;
        if i > 0 { assert names[1..][i - 1] == names[i]; } else { assert head[0] == names[0]; }
      }
    }
  }

  lemma {:induction false} KeysConcat(a: seq<string>, b: seq<string>)
    ensures Keys(a + b) == Keys(a) + Keys(b)
  {
    forall k | k in Keys(a) + Keys(b) ensures k in Keys(a + b) {
      if k in Keys(a) {
        var i :| 0 <= i < |a| && Lower(a[i]) == k;
        assert (a + b)[i] == a[i];
      } else {
        var i :| 0 <= i < |b| && Lower(b[i]) == k;
        assert (a + b)[|a| + i] == b[i];
      }
    }
  }

  /** `_strip_headers_for_route`: an injecting route must not strip what extAuth wrote, nor the hop it sets. */
  function StripForRoute(auth: Auth, route: RouteHeaders, inject: bool, hop: Option<string>): seq<string> {
    if !route.strip then []
    else if !(inject && WantsHop(auth, route)) then StripNames(auth)
    else
      var kept := KeepNames(h => !IsIdentity(auth, Lower(h)), StripNames(auth));
      if hop.Some? && hop.value != "" then KeepNames(h => Lower(h) != Lower(hop.value), kept) else kept
  }

  // ---------------------------------------------------------------- merging

  function HopName(auth: Auth): string {
    if auth.hop != "" then auth.hop else DEFAULT_HOP
  }

  /** The hop header this route sets, when it injects and a non-empty secret is at hand. */
  function HopFor(auth: Auth, route: RouteHeaders, secret: Option<string>, inject: bool): Option<string> {
    if inject && WantsHop(auth, route) && secret.Some? && secret.value != "" then Some(HopName(auth)) else None
  }

  function ExtraRemoves(extras: seq<Extra>): seq<string> {
    if extras == [] then []
    else ExtraRemoves(extras[..|extras| - 1]) + match extras[|extras| - 1] case Rhm(r, _, _) => r case Other(_) => []
  }

  function ExtraSets(extras: seq<Extra>): seq<Named> {
    if extras == [] then []
    else ExtraSets(extras[..|extras| - 1]) + match extras[|extras| - 1] case Rhm(_, s, _) => s case Other(_) => []
  }

  function ExtraAdds(extras: seq<Extra>): seq<Named> {
    if extras == [] then []
    else ExtraAdds(extras[..|extras| - 1]) + match extras[|extras| - 1] case Rhm(_, _, a) => a case Other(_) => []
  }

  function Passed(extras: seq<Extra>): seq<Filter> {
    if extras == [] then []
    else
      Passed(extras[..|extras| - 1])
      + match extras[|extras| - 1] case Rhm(_, _, _) => [] case Other(id) => [Pass(id)]
  }

  function AllRemoves(auth: Auth, route: RouteHeaders, secret: Option<string>, inject: bool): seq<string> {
    StripForRoute(auth, route, inject, HopFor(auth, route, secret, inject)) + ExtraRemoves(route.extras)
  }

  function AllSets(auth: Auth, route: RouteHeaders, secret: Option<string>, inject: bool): seq<Named> {
    (match HopFor(auth, route, secret, inject) case Some(h) => [Named(h, secret.value)] case None => [])
    + ExtraSets(route.extras)
  }

  /** `_merge_request_header_modifier`. */
  function Merge(remove: seq<string>, sets: seq<Named>, adds: seq<Named>): Option<Filter> {
    if remove == [] && sets == [] && adds == [] then None
    else Some(Modifier(DedupeNames(remove), DedupeNamed(sets), DedupeNamed(adds)))
  }

  function Filters(auth: Auth, route: RouteHeaders, secret: Option<string>, inject: bool): seq<Filter> {
    (match Merge(AllRemoves(auth, route, secret, inject), AllSets(auth, route, secret, inject), ExtraAdds(route.extras))
     case Some(f) => [f] case None => [])
    + Passed(route.extras)
  }

  method StripHeadersForRoute(auth: Auth, route: RouteHeaders, inject: bool, hop: Option<string>)
    returns (headers: seq<string>)
    ensures headers == StripForRoute(auth, route, inject, hop)
  {
    if !route.strip {
      return [];
    }
    headers := IdentityRemoveHeaders(auth);
    if inject && WantsHop(auth, route) {
      headers := KeepNames(h => !IsIdentity(auth, Lower(h)), headers);
      if hop.Some? && hop.value != "" {
        headers := KeepNames(h => Lower(h) != Lower(hop.value), headers);
      }
    }
  }

  method MergeRequestHeaderModifier(remove: seq<string>, sets: seq<Named>, adds: seq<Named>) returns (r: Option<Filter>)
    ensures r == Merge(remove, sets, adds)
  {
    if remove == [] && sets == [] && adds == [] {
      return None;
    }
    var body := Modifier([], [], []);
    if remove != [] {
      var names := DedupeHeaderNames(remove);
      body := body.(remove := names);
    }
    if sets != [] {
      var items := DedupeNamedHeaders(sets);
      body := body.(sets := items);
    } else {
      assert DedupeNamed(sets) == [];
    }
    if adds != [] {
      var items := DedupeNamedHeaders(adds);
      body := body.(adds := items);
    } else {
      assert DedupeNamed(adds) == [];
    }
    r := Some(body);
  }

  /** The extras loop: modifiers are taken apart, other filters are passed on. */
  method CollectExtras(extras: seq<Extra>)
    returns (remove: seq<string>, sets: seq<Named>, adds: seq<Named>, passed: seq<Filter>)
    ensures remove == ExtraRemoves(extras) && sets == ExtraSets(extras)
    ensures adds == ExtraAdds(extras) && passed == Passed(extras)
  {
    remove, sets, adds, passed := [], [], [], [];
    for i := 0 to |extras|
      invariant remove == ExtraRemoves(extras[..i]) && sets == ExtraSets(extras[..i])
      invariant adds == ExtraAdds(extras[..i]) && passed == Passed(extras[..i])
    {
      assert extras[..i + 1][..i] == extras[..i];
      match extras[i] {
        case Rhm(r, s, a) =>
          remove, sets, adds := remove + r, sets + s, adds + a;
        case Other(id) =>
          passed := passed + [Pass(id)];
      }
    }
    assert extras[..|extras|] == extras;
  }

  /** `_route_filters`. */
  method RouteFilters(auth: Auth, route: RouteHeaders, secret: Option<string>, inject: bool)
    returns (filters: seq<Filter>)
    ensures filters == Filters(auth, route, secret, inject)
  {
    var hop: Option<string> := None;
    var sets: seq<Named> := [];
    if inject && WantsHop(auth, route) && secret.Some? && secret.value != "" {
      hop := Some(HopName(auth));
      sets := [Named(hop.value, secret.value)];
    }
    var remove := StripHeadersForRoute(auth, route, inject, hop);
    var moreRemove, moreSets, adds, passed := CollectExtras(route.extras);
    var merged := MergeRequestHeaderModifier(remove + moreRemove, sets + moreSets, adds);
    filters := if merged.Some? then [merged.value] else [];
    filters := filters + passed;
  }
}
