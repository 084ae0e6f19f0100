/** The routes of a gateway: mapping with inheritance from the public route (`mapping.py`), and the names the
    managed ones are rendered under (`render_gateway_manifests.py`). */
module Routes {
  import opened Common

  datatype Role = Public | Admin | Extra

  datatype RawRef = RawRef(name: Option<string>, namespace: Option<string>, sectionName: Option<string>)
  datatype RawRoute = RawRoute(
    name: Option<string>, hostname: Option<string>, gatewayRef: Option<RawRef>, path: Option<string>,
    strip: Option<bool>, inject: Option<bool>, manage: Option<bool>)

  datatype Route = Route(
    hostname: string, gatewayRef: ParentRef, path: string, strip: bool, inject: Option<bool>, manage: bool,
    routeName: Option<string>)

  datatype Fault =
    | PublicRequired | HostnameRequired | ParentRequired | PathRequired | PathNotRooted
    | NameRequired | NotALabel | Reserved | Duplicated

  type Outcome<T> = Result<T, Fault>

  /** `str(raw or "").strip()`. */
  function Cleaned(s: Option<string>): string {
    if s.Some? then Strip(s.value) else ""
  }

  function NonEmpty(s: Option<string>): Option<string> {
    if s == Some("") then None else s
  }

  // ---------------------------------------------------------------- one route

  /** `_parent_ref_from_raw`. */
  function ParentOf(raw: Option<RawRef>, inherit: Option<ParentRef>): Outcome<ParentRef> {
    var name := if raw.Some? then Cleaned(raw.value.name) else "";
    if name == "" then
      if inherit.Some? then Ok(inherit.value) else Err(ParentRequired)
    else Ok(ParentRef(name, NonEmpty(raw.value.namespace), NonEmpty(raw.value.sectionName)))
  }

  /** `_route_path`. */
  function PathOf(raw: Option<string>, role: Role): Outcome<string> {
    var path := Cleaned(raw);
    if path == "" then
      match role
      case Admin => Ok("/admin")
      case Extra => Err(PathRequired)
      case Public => Ok("/")
    else if path[0] != '/' then Err(PathNotRooted)
    else Ok(path)
  }

  function InjectOf(raw: Option<bool>, role: Role): Option<bool> {
    if role == Public then Some(false)
    else if role == Extra && raw.None? then Some(false)
    else raw
  }

  function Or(b: Option<bool>, default: bool): bool {
    if b.Some? then b.value else default
  }

  /** `_route`. */
  function MapRoute(raw: RawRoute, role: Role, inherit: Option<Route>): Outcome<Route> {
    var own := Cleaned(raw.hostname);
    if own == "" && inherit.None? then Err(HostnameRequired)
    else
      match ParentOf(raw.gatewayRef, if inherit.Some? then Some(inherit.value.gatewayRef) else None)
      case Err(e) => Err(e)
      case Ok(parent) =>
        match PathOf(raw.path, role)
        case Err(e) => Err(e)
        case Ok(path) =>
          Ok(Route(if own == "" then inherit.value.hostname else own, parent, path, Or(raw.strip, true),
                   InjectOf(raw.inject, role), Or(raw.manage, true), None))
  }

  /** What every mapped route has: a host, a parent and a rooted path. */
  predicate WellShaped(r: Route) {
    r.hostname != "" && r.gatewayRef.name != "" && StartsWith(r.path, "/")
  }

  lemma {:induction false} PathIsRooted(raw: Option<string>, role: Role)
    requires PathOf(raw, role).Ok?
    ensures StartsWith(PathOf(raw, role).value, "/")
  {
    var path := PathOf(raw, role).value;
    assert path[..1] == [path[0]];
  }

  lemma {:induction false} ParentIsNamed(raw: Option<RawRef>, inherit: Option<ParentRef>)
    requires ParentOf(raw, inherit).Ok? && (inherit.Some? ==> inherit.value.name != "")
    ensures ParentOf(raw, inherit).value.name != ""
  {
  }

  /** A route without an inherited part or with a well-shaped one is well shaped, and injects only as its role
      allows: a public route never, an extra route only when asked to. */
  lemma {:induction false} MappedRoute(raw: RawRoute, role: Role, inherit: Option<Route>)
    requires MapRoute(raw, role, inherit).Ok? && (inherit.Some? ==> WellShaped(inherit.value))
    ensures var r := MapRoute(raw, role, inherit).value;
            && WellShaped(r)
            && (role == Public ==> r.inject == Some(false))
            && (role == Extra ==> (r.inject == Some(true) <==> raw.inject == Some(true)) && r.inject.Some?)
            && (role == Admin ==> r.inject == raw.inject)
  {
    PathIsRooted(raw.path, role);
    ParentIsNamed(raw.gatewayRef, if inherit.Some? then Some(inherit.value.gatewayRef) else None);
  }

  /** The parent is one reference or the other, never a mixture: a namespace or section given without a name
      is dropped. */
  lemma {:induction false} ParentIsWhole(raw: RawRoute, role: Role, inherit: Route)
    requires MapRoute(raw, role, Some(inherit)).Ok?
    ensures var named := raw.gatewayRef.Some? && Cleaned(raw.gatewayRef.value.name) != "";
            && (!named ==> MapRoute(raw, role, Some(inherit)).value.gatewayRef == inherit.gatewayRef)
            && (named ==> forall other: Route | MapRoute(raw, role, Some(other)).Ok? ::
                  MapRoute(raw, role, Some(other)).value.gatewayRef ==
                      MapRoute(raw, role, Some(inherit)).value.gatewayRef)
  {
  }

  // ---------------------------------------------------------------- extra routes

  predicate LabelEnd(c: char) { 'a' <= c <= 'z' || '0' <= c <= '9' }

  /** A DNS-1123 label. */
  predicate IsLabel(s: string) {
    0 < |s| <= 63 && LabelEnd(s[0]) && LabelEnd(s[|s| - 1]) && forall i | 0 <= i < |s| :: LabelEnd(s[i]) || s[i] == '-'
  }

  /** The name of an item, or why it is refused; `seen` holds the names before it. */
  function NameOf(raw: RawRoute, seen: set<string>): Outcome<string> {
    var name := Cleaned(raw.name);
    if name == "" then Err(NameRequired)
    else if !IsLabel(name) then Err(NotALabel)
    else if name == "public" || name == "admin" then Err(Reserved)
    else if name in seen then Err(Duplicated)
    else Ok(name)
  }

  function OneExtra(raw: RawRoute, seen: set<string>, public: Route): Outcome<Route> {
    match NameOf(raw, seen)
    case Err(e) => Err(e)
    case Ok(name) =>
      match MapRoute(raw, Extra, Some(public))
      case Err(e) => Err(e)
      case Ok(r) => Ok(r.(routeName := Some(name)))
  }

  function ExtrasFrom(items: seq<RawRoute>, seen: set<string>, public: Route): Outcome<seq<Route>>
    decreases |items|
  {
    if items == [] then Ok([])
    else
      match OneExtra(items[0], seen, public)
      case Err(e) => Err(e)
      case Ok(r) =>
        match ExtrasFrom(items[1..], seen + {Cleaned(items[0].name)}, public)
        case Err(e) => Err(e)
        case Ok(rs) => Ok([r] + rs)
  }

  function After(routes: seq<Route>, rest: Outcome<seq<Route>>): Outcome<seq<Route>> {
    match rest
    case Err(e) => Err(e)
    case Ok(rs) => Ok(routes + rs)
  }

  lemma {:induction false} ExtrasStep(items: seq<RawRoute>, i: nat, seen: set<string>, public: Route,
                                      routes: seq<Route>)
    requires i < |items|
    ensures After(routes, ExtrasFrom(items[i..], seen, public)) ==
            match OneExtra(items[i], seen, public)
            case Err(e) => Err(e)
            case Ok(r) => After(routes + [r], ExtrasFrom(items[i + 1..], seen + {Cleaned(items[i].name)}, public))
  {
    assert items[i..][0] == items[i] && items[i..][1..] == items[i + 1..];
    match OneExtra(items[i], seen, public)
    case Err(_) =>
    case Ok(r) => AfterOne(routes, r, ExtrasFrom(items[i + 1..], seen + {Cleaned(items[i].name)}, public));
  }

  lemma {:induction false} AfterOne(routes: seq<Route>, r: Route, rest: Outcome<seq<Route>>)
    ensures After(routes + [r], rest) == After(routes, After([r], rest))
  {
    if rest.Ok? {
      assert routes + [r] + rest.value == routes + ([r] + rest.value);
    }
  }

  lemma {:induction false} AfterNothing(rest: Outcome<seq<Route>>)
    ensures After([], rest) == rest
  {
    if rest.Ok? {
      assert [] + rest.value == rest.value;
    }
  }

  /** `_extra_routes`: the first item that fails decides. */
  method ExtraRoutes(items: seq<RawRoute>, public: Route) returns (r: Outcome<seq<Route>>)
    ensures r == ExtrasFrom(items, {}, public)
  {
    var seen: set<string> := {};
    var routes: seq<Route> := [];
    ghost var all := ExtrasFrom(items, {}, public);
    ghost var rest := all;
    AfterNothing(all);
    assert items[0..] == items;
    for i := 0 to |items|
      invariant rest == ExtrasFrom(items[i..], seen, public)
      invariant all == After(routes, rest)
    {
      ExtrasStep(items, i, seen, public, routes);
      rest := ExtrasFrom(items[i + 1..], seen + {Cleaned(items[i].name)}, public);
      var route := OneExtra(items[i], seen, public);
      if route.Err? {
        return Err(route.error);
      }
      seen := seen + {Cleaned(items[i].name)};
      routes := routes + [route.value];
    }
    assert items[|items|..] == [] && routes + [] == routes;
    r := Ok(routes);
  }

  /** A mapped extra route: its name is the item's label, neither reserved nor used before. */
  ghost predicate Suffixed(r: Route, item: RawRoute, seen: set<string>) {
    && r.routeName == Some(Cleaned(item.name))
    && IsLabel(r.routeName.value) && r.routeName.value != "public" && r.routeName.value != "admin"
    && r.routeName.value !in seen
    && WellShaped(r) && (r.inject == Some(true) <==> item.inject == Some(true))
  }

  lemma {:induction false} ExtraSuffixed(item: RawRoute, seen: set<string>, public: Route)
    requires OneExtra(item, seen, public).Ok? && WellShaped(public)
    ensures Suffixed(OneExtra(item, seen, public).value, item, seen)
  {
    MappedRoute(item, Extra, Some(public));
  }

  lemma {:induction false} ExtrasCons(items: seq<RawRoute>, seen: set<string>, public: Route)
    returns (r: Route, rs: seq<Route>)
    requires items != [] && ExtrasFrom(items, seen, public).Ok?
    ensures OneExtra(items[0], seen, public) == Ok(r)
    ensures ExtrasFrom(items[1..], seen + {Cleaned(items[0].name)}, public) == Ok(rs)
    ensures ExtrasFrom(items, seen, public) == Ok([r] + rs)
  {
    r := OneExtra(items[0], seen, public).value;
    rs := ExtrasFrom(items[1..], seen + {Cleaned(items[0].name)}, public).value;
  }

  /** One route per item, in order, each named by its item. */
  ghost predicate AllSuffixed(rs: seq<Route>, items: seq<RawRoute>, seen: set<string>) {
    |rs| == |items| && forall i | 0 <= i < |rs| :: Suffixed(rs[i], items[i], seen)
  }

  ghost predicate NamesDiffer(rs: seq<Route>) {
    forall i, j | 0 <= i < j < |rs| :: rs[i].routeName != rs[j].routeName
  }

  lemma {:induction false} SeenLess(r: Route, item: RawRoute, seen: set<string>, name: string)
    requires Suffixed(r, item, seen + {name})
    ensures Suffixed(r, item, seen) && r.routeName != Some(name)
  {
  }

  lemma {:induction false} NamesDifferCons(r: Route, rs: seq<Route>)
    requires NamesDiffer(rs) && forall i | 0 <= i < |rs| :: rs[i].routeName != r.routeName
    ensures NamesDiffer([r] + rs)
  {
  }

  lemma {:induction false} AllSuffixedCons(r: Route, rs: seq<Route>, items: seq<RawRoute>, seen: set<string>)
    requires items != [] && Suffixed(r, items[0], seen) && AllSuffixed(rs, items[1..], seen)
    ensures AllSuffixed([r] + rs, items, seen)
  {
    var all := [r] + rs;
    forall i | 0 <= i < |all| ensures Suffixed(all[i], items[i], seen) {
      if i > 0 { assert all[i] == rs[i - 1] && items[i] == items[1..][i - 1]; }
    }
  }

  lemma {:induction false} AllSeenLess(rs: seq<Route>, items: seq<RawRoute>, seen: set<string>, name: string)
    requires AllSuffixed(rs, items, seen + {name})
    ensures AllSuffixed(rs, items, seen) && forall i | 0 <= i < |rs| :: rs[i].routeName != Some(name)
  {
    forall i | 0 <= i < |rs| ensures Suffixed(rs[i], items[i], seen) && rs[i].routeName != Some(name) {
      SeenLess(rs[i], items[i], seen, name);
    }
  }

  /** What an accepted list of extra routes guarantees: one route per item, in order, named by the item's own
      label, no name repeated or reserved, each well shaped. */
  lemma {:induction false} ExtrasAreDistinct(items: seq<RawRoute>, seen: set<string>, public: Route, out: seq<Route>)
    requires ExtrasFrom(items, seen, public) == Ok(out) && WellShaped(public)
    ensures AllSuffixed(out, items, seen) && NamesDiffer(out)
    decreases |items|
  {
    if items != [] {
      var r, rs := ExtrasCons(items, seen, public);
      var name := Cleaned(items[0].name);
      ExtrasAreDistinct(items[1..], seen + {name}, public, rs);
      ExtraSuffixed(items[0], seen, public);
      AllSeenLess(rs, items[1..], seen, name);
      AllSuffixedCons(r, rs, items, seen);
      NamesDifferCons(r, rs);
    }
  }

  // ---------------------------------------------------------------- the gateway's routes

  datatype GatewayRoutes = GatewayRoutes(public: Route, admin: Option<Route>, extras: seq<Route>)

  /** The route part of `map_gateway`; an empty object counts as absent. */
  function MapRoutes(public: Option<RawRoute>, admin: Option<RawRoute>, extras: seq<RawRoute>): Outcome<GatewayRoutes> {
    if public.None? then Err(PublicRequired)
    else
      match MapRoute(public.value, Public, None)
      case Err(e) => Err(e)
      case Ok(p) =>
        match (if admin.None? then Ok(None) else Wrap(MapRoute(admin.value, Admin, Some(p))))
        case Err(e) => Err(e)
        case Ok(a) =>
          match ExtrasFrom(extras, {}, p)
          case Err(e) => Err(e)
          case Ok(rs) => Ok(GatewayRoutes(p, a, rs))
  }

  function Wrap(r: Outcome<Route>): Outcome<Option<Route>> {
    match r
    case Err(e) => Err(e)
    case Ok(x) => Ok(Some(x))
  }

  /** The suffix a route is rendered under, in order; a route the operator does not manage has none. */
  function Suffixes(g: GatewayRoutes): seq<string> {
    (if g.public.manage then ["public"] else [])
    + (if g.admin.Some? && g.admin.value.manage then ["admin"] else [])
    + ExtraSuffixes(g.extras)
  }

  function SuffixOf(r: Route): string {
    if r.routeName.Some? && r.routeName.value != "" then r.routeName.value else "extra"
  }

  function ExtraSuffixes(rs: seq<Route>): seq<string>
    decreases |rs|
  {
    if rs == [] then []
    else (if rs[0].manage then [SuffixOf(rs[0])] else []) + ExtraSuffixes(rs[1..])
  }

  /** `{gateway}-{suffix}`. */
  function HttpRouteName(gateway: string, suffix: string): string { gateway + "-" + suffix }

  ghost predicate NoRepeats(s: seq<string>) {
    forall i, j | 0 <= i < j < |s| :: s[i] != s[j]
  }

  ghost predicate Labelled(rs: seq<Route>) {
    && (forall i | 0 <= i < |rs| :: rs[i].routeName.Some? && rs[i].routeName.value !in {"", "public", "admin"})
    && NamesDiffer(rs)
  }

  lemma {:induction false} ExtraSuffixesDiffer(rs: seq<Route>)
    requires Labelled(rs)
    ensures NoRepeats(ExtraSuffixes(rs))
    ensures forall s | s in ExtraSuffixes(rs) :: exists i :: 0 <= i < |rs| && rs[i].routeName == Some(s)
    decreases |rs|
  {
    if rs != [] {
      var tail := rs[1..];
      assert forall i | 0 <= i < |tail| :: tail[i] == rs[i + 1];
      ExtraSuffixesDiffer(tail);
      var s, t := ExtraSuffixes(rs), ExtraSuffixes(tail);
      forall x | x in t ensures x != SuffixOf(rs[0]) && exists i :: 0 <= i < |rs| && rs[i].routeName == Some(x) {
        var i :| 0 <= i < |tail| && tail[i].routeName == Some(x);
        assert rs[i + 1].routeName == Some(x) && rs[0].routeName != rs[i + 1].routeName;
      }
      assert rs[0].routeName == Some(SuffixOf(rs[0]));
    }
  }

  lemma {:induction false} MappedLabelled(extras: seq<RawRoute>, p: Route)
    requires ExtrasFrom(extras, {}, p).Ok? && WellShaped(p)
    ensures Labelled(ExtrasFrom(extras, {}, p).value)
  {
    var rs := ExtrasFrom(extras, {}, p).value;
    ExtrasAreDistinct(extras, {}, p, rs);
    forall i | 0 <= i < |rs| ensures rs[i].routeName.Some? && rs[i].routeName.value !in {"", "public", "admin"} {
      assert Suffixed(rs[i], extras[i], {});
    }
  }

  lemma {:induction false} SuffixesDiffer(g: GatewayRoutes)
    requires Labelled(g.extras)
    ensures NoRepeats(Suffixes(g))
  {
    ExtraSuffixesDiffer(g.extras);
    var e := ExtraSuffixes(g.extras);
    assert "public" !in e && "admin" !in e;
    assert "public" != "admin";
  }

  lemma {:induction false} MappedParts(public: Option<RawRoute>, admin: Option<RawRoute>, extras: seq<RawRoute>)
    returns (g: GatewayRoutes)
    requires MapRoutes(public, admin, extras).Ok?
    ensures MapRoutes(public, admin, extras) == Ok(g)
    ensures public.Some? && MapRoute(public.value, Public, None) == Ok(g.public)
    ensures ExtrasFrom(extras, {}, g.public) == Ok(g.extras)
  {
    g := MapRoutes(public, admin, extras).value;
  }

  lemma {:induction false} PrefixedDiffer(gateway: string, s: seq<string>)
    requires NoRepeats(s)
    ensures forall i, j | 0 <= i < j < |s| :: HttpRouteName(gateway, s[i]) != HttpRouteName(gateway, s[j])
  {
    forall i, j | 0 <= i < j < |s| ensures HttpRouteName(gateway, s[i]) != HttpRouteName(gateway, s[j]) {
      NameInjective(gateway, s[i], s[j]);
    }
  }

  /** No two HTTPRoutes rendered for one gateway share a name, whatever the resource says. */
  lemma {:induction false} RenderedNamesDiffer(gateway: string, public: Option<RawRoute>, admin: Option<RawRoute>,
                                               extras: seq<RawRoute>)
    requires MapRoutes(public, admin, extras).Ok?
    ensures var s := Suffixes(MapRoutes(public, admin, extras).value);
            forall i, j | 0 <= i < j < |s| :: HttpRouteName(gateway, s[i]) != HttpRouteName(gateway, s[j])
  {
    var g := MappedParts(public, admin, extras);
    MappedRoute(public.value, Public, None);
    MappedLabelled(extras, g.public);
    SuffixesDiffer(g);
    PrefixedDiffer(gateway, Suffixes(g));
  }

  lemma {:induction false} NameInjective(gateway: string, s: string, t: string)
    ensures HttpRouteName(gateway, s) == HttpRouteName(gateway, t) <==> s == t
  {
    assert HttpRouteName(gateway, s)[|gateway| + 1..] == s;
    assert HttpRouteName(gateway, t)[|gateway| + 1..] == t;
  }

  /** Two gateways of one namespace share an HTTPRoute name exactly when one gateway's name continues the
      other's by a dash and the front of the other's suffix: `a` with an extra route `b-public` takes the
      name of the public route of `a-b`. */
  lemma {:induction false} NamesMeetIff(g: string, s: string, h: string, t: string)
    requires |g| < |h|
    ensures HttpRouteName(g, s) == HttpRouteName(h, t) <==>
            StartsWith(h, g + "-") && s == h[|g| + 1..] + "-" + t
  {
    var a, b := HttpRouteName(g, s), HttpRouteName(h, t);
    if a == b {
      assert b[..|g| + 1] == h[..|g| + 1];
      assert a[..|g| + 1] == g + "-";
      assert a[|g| + 1..] == s;
      assert b[|g| + 1..] == h[|g| + 1..] + "-" + t;
    }
    if StartsWith(h, g + "-") && s == h[|g| + 1..] + "-" + t {
      assert h == (g + "-") + h[|g| + 1..];
      assert a == b;
    }
  }

  lemma {:induction false} TwoGatewaysMeet()
    ensures HttpRouteName("a", "b-public") == HttpRouteName("a-b", "public")
    ensures IsLabel("b-public")
  {
  }
}
