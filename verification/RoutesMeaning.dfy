/** What a gateway resource says about its routes, as a relation between the raw fields and the routes: every default
    and every inherited part by value, every reason to refuse; and which HTTPRoutes come of it. */
module RoutesMeaning {
  import opened Common
  import opened TextMeaning
  import opened Routes

  /** The text of a field without the white space around it; nothing counts as empty. */
  ghost predicate Reads(field: Option<string>, text: string) {
    if field.None? then text == "" else Trims(field.value, text)
  }

  /** A field whose empty text counts as nothing. */
  predicate Given(field: Option<string>, v: Option<string>) {
    if field == Some("") then v == None else v == field
  }

  ghost predicate ReadsHost(raw: RawRoute, inherit: Option<Route>, host: string) {
    exists own :: Reads(raw.hostname, own)
                  && if own != "" then host == own else inherit.Some? && host == inherit.value.hostname
  }

  /** The reference is the route's own when it has a name, and otherwise wholly the inherited one. */
  ghost predicate ReadsParent(raw: RawRoute, inherit: Option<Route>, p: ParentRef) {
    if raw.gatewayRef.None? then inherit.Some? && p == inherit.value.gatewayRef
    else
      var own := raw.gatewayRef.value;
      exists name :: Reads(own.name, name)
                     && if name == "" then inherit.Some? && p == inherit.value.gatewayRef
                        else
                          && p.name == name && Given(own.namespace, p.namespace)
                          && Given(own.sectionName, p.sectionName)
  }

  ghost predicate ReadsPath(raw: RawRoute, role: Role, path: string) {
    exists text :: Reads(raw.path, text)
                   && if text != "" then text[0] == '/' && path == text
                      else (role == Public && path == "/") || (role == Admin && path == "/admin")
  }

  /** Public routes never inject; an extra route only when it says so; an admin route as it says, or as it is decided
      later from the secret. */
  predicate ReadsInject(raw: RawRoute, role: Role, inject: Option<bool>) {
    match role
    case Public => inject == Some(false)
    case Admin => inject == raw.inject
    case Extra => inject == Some(raw.inject == Some(true))
  }

  /** Stripping and managing are on unless switched off. */
  ghost predicate ReadsRoute(raw: RawRoute, role: Role, inherit: Option<Route>, r: Route) {
    && ReadsHost(raw, inherit, r.hostname) && ReadsParent(raw, inherit, r.gatewayRef) && ReadsPath(raw, role, r.path)
    && r.strip == (raw.strip != Some(false)) && r.manage == (raw.manage != Some(false))
    && ReadsInject(raw, role, r.inject)
  }

  /** A DNS-1123 label. */
  predicate Label(s: string) {
    && 1 <= |s| <= 63 && s[0] != '-' && s[|s| - 1] != '-'
    && forall i | 0 <= i < |s| :: 'a' <= s[i] <= 'z' || '0' <= s[i] <= '9' || s[i] == '-'
  }

  /** What one item says, whatever the others say. */
  ghost predicate ReadsExtra(item: RawRoute, public: Route, r: Route) {
    && r.routeName.Some? && Reads(item.name, r.routeName.value) && Label(r.routeName.value)
    && r.routeName.value != "public" && r.routeName.value != "admin"
    && ReadsRoute(item, Extra, Some(public), r)
  }

  /** The extra routes come one per item, each under the item's label, which no other item has. */
  ghost predicate ReadsExtras(items: seq<RawRoute>, public: Route, rs: seq<Route>) {
    && |rs| == |items|
    && (forall i | 0 <= i < |items| :: ReadsExtra(items[i], public, rs[i]))
    && forall i, j | 0 <= i < j < |items| :: rs[i].routeName != rs[j].routeName
  }

  ghost predicate ReadsRoutes(public: Option<RawRoute>, admin: Option<RawRoute>, extras: seq<RawRoute>,
                              g: GatewayRoutes)
  {
    && public.Some? && g.public.routeName == None && ReadsRoute(public.value, Public, None, g.public)
    && (if admin.None? then g.admin == None
        else
          && g.admin.Some? && g.admin.value.routeName == None
          && ReadsRoute(admin.value, Admin, Some(g.public), g.admin.value))
    && ReadsExtras(extras, g.public, g.extras)
  }

  // ---------------------------------------------------------------- one route

  lemma {:induction false} CleanedIff(field: Option<string>, text: string)
    ensures Cleaned(field) == text <==> Reads(field, text)
  {
    if field.Some? { StripIff(field.value, text); }
  }

  lemma {:induction false} CleanedAre()
    ensures forall field, text :: Cleaned(field) == text <==> Reads(field, text)
  {
    forall field, text ensures Cleaned(field) == text <==> Reads(field, text) { CleanedIff(field, text); }
  }

  lemma {:induction false} ParentIff(raw: RawRoute, inherit: Option<Route>, p: ParentRef)
    ensures ParentOf(raw.gatewayRef, if inherit.Some? then Some(inherit.value.gatewayRef) else None) == Ok(p)
       <==> ReadsParent(raw, inherit, p)
  {
    if raw.gatewayRef.Some? {
      var own := raw.gatewayRef.value;
      CleanedAre();
      assert Reads(own.name, Cleaned(own.name));
    }
  }

  lemma {:induction false} PathIff(raw: RawRoute, role: Role, path: string)
    ensures PathOf(raw.path, role) == Ok(path) <==> ReadsPath(raw, role, path)
  {
    CleanedAre();
    assert Reads(raw.path, Cleaned(raw.path));
  }

  lemma {:induction false} HostIff(raw: RawRoute, inherit: Option<Route>, host: string)
    ensures ReadsHost(raw, inherit, host)
       <==> if Cleaned(raw.hostname) != "" then host == Cleaned(raw.hostname)
            else inherit.Some? && host == inherit.value.hostname
  {
    CleanedAre();
    assert Reads(raw.hostname, Cleaned(raw.hostname));
  }

  lemma {:induction false} InjectIff(raw: RawRoute, role: Role, inject: Option<bool>)
    ensures ReadsInject(raw, role, inject) <==> inject == InjectOf(raw.inject, role)
  {
    match role
    case Public =>
    case Admin =>
    case Extra =>
      match raw.inject
      case None =>
      case Some(b) => assert Some(b == true) == Some(b);
  }

  lemma {:induction false} RouteParts(raw: RawRoute, role: Role, inherit: Option<Route>, r: Route)
    ensures MapRoute(raw, role, inherit) == Ok(r)
       <==> && ReadsHost(raw, inherit, r.hostname)
            && ParentOf(raw.gatewayRef, if inherit.Some? then Some(inherit.value.gatewayRef) else None)
               == Ok(r.gatewayRef)
            && PathOf(raw.path, role) == Ok(r.path) && r.routeName == None
            && r.strip == (raw.strip != Some(false)) && r.manage == (raw.manage != Some(false))
            && ReadsInject(raw, role, r.inject)
  {
    HostIff(raw, inherit, r.hostname);
    assert Or(raw.strip, true) == (raw.strip != Some(false)) && Or(raw.manage, true) == (raw.manage != Some(false));
    InjectIff(raw, role, r.inject);
  }

  /** A route is mapped exactly when its fields read so. */
  lemma {:induction false} RouteIff(raw: RawRoute, role: Role, inherit: Option<Route>, r: Route)
    ensures MapRoute(raw, role, inherit) == Ok(r) <==> r.routeName == None && ReadsRoute(raw, role, inherit, r)
  {
    RouteParts(raw, role, inherit, r);
    ParentIff(raw, inherit, r.gatewayRef);
    PathIff(raw, role, r.path);
  }

  // ---------------------------------------------------------------- extra routes

  lemma {:induction false} LabelIff(s: string)
    ensures IsLabel(s) <==> Label(s)
  {
  }

  lemma {:induction false} OneExtraParts(item: RawRoute, seen: set<string>, public: Route, r: Route)
    ensures OneExtra(item, seen, public) == Ok(r)
       <==> && r.routeName == Some(Cleaned(item.name)) && IsLabel(r.routeName.value)
            && r.routeName.value != "public" && r.routeName.value != "admin" && r.routeName.value !in seen
            && MapRoute(item, Extra, Some(public)) == Ok(r.(routeName := None))
  {
    RouteParts(item, Extra, Some(public), r.(routeName := None));
    if MapRoute(item, Extra, Some(public)).Ok? {
      RouteParts(item, Extra, Some(public), MapRoute(item, Extra, Some(public)).value);
    }
  }

  lemma {:induction false} OneExtraIff(item: RawRoute, seen: set<string>, public: Route, r: Route)
    ensures OneExtra(item, seen, public) == Ok(r)
       <==> ReadsExtra(item, public, r) && r.routeName.value !in seen
  {
    var bare := r.(routeName := None);
    RouteIff(item, Extra, Some(public), bare);
    OneExtraParts(item, seen, public, r);
    if r.routeName.Some? {
      CleanedIff(item.name, r.routeName.value);
      LabelIff(r.routeName.value);
    }
  }

  ghost predicate ReadsUnseen(items: seq<RawRoute>, seen: set<string>, public: Route, rs: seq<Route>) {
    ReadsExtras(items, public, rs) && forall i | 0 <= i < |rs| :: rs[i].routeName.value !in seen
  }

  lemma {:induction false} ExtrasTail(items: seq<RawRoute>, public: Route, rs: seq<Route>)
    requires items != [] && rs != [] && ReadsExtra(items[0], public, rs[0])
    ensures ReadsExtras(items, public, rs)
       <==> ReadsExtras(items[1..], public, rs[1..]) && forall i | 1 <= i < |rs| :: rs[i].routeName != rs[0].routeName
  {
    if ReadsExtras(items[1..], public, rs[1..]) && forall i | 1 <= i < |rs| :: rs[i].routeName != rs[0].routeName {
      forall i | 0 <= i < |items| ensures ReadsExtra(items[i], public, rs[i]) {
        if i > 0 { assert items[i] == items[1..][i - 1] && rs[i] == rs[1..][i - 1]; }
      }
      forall i, j | 0 <= i < j < |items| ensures rs[i].routeName != rs[j].routeName {
        if i > 0 { assert rs[i] == rs[1..][i - 1] && rs[j] == rs[1..][j - 1]; }
      }
    }
    if ReadsExtras(items, public, rs) {
      forall i | 0 <= i < |items| - 1 ensures ReadsExtra(items[1..][i], public, rs[1..][i]) {
        assert items[i + 1] == items[1..][i] && rs[i + 1] == rs[1..][i];
      }
    }
  }

  lemma {:induction false} UnseenTail(rs: seq<Route>, seen: set<string>, name: string)
    requires rs != [] && rs[0].routeName == Some(name) && name !in seen
    requires forall i | 0 <= i < |rs| :: rs[i].routeName.Some?
    ensures (forall i | 1 <= i < |rs| :: rs[i].routeName != rs[0].routeName)
            && (forall i | 0 <= i < |rs| :: rs[i].routeName.value !in seen)
       <==> forall i | 0 <= i < |rs| - 1 :: rs[1..][i].routeName.value !in seen + {name}
  {
    assert forall i | 1 <= i < |rs| :: rs[i] == rs[1..][i - 1];
  }

  lemma {:induction false} UnseenCons(items: seq<RawRoute>, seen: set<string>, public: Route, rs: seq<Route>,
                                      name: string)
    requires items != [] && rs != [] && rs[0].routeName == Some(name) && name !in seen
    requires ReadsExtra(items[0], public, rs[0])
    ensures ReadsUnseen(items, seen, public, rs) <==> ReadsUnseen(items[1..], seen + {name}, public, rs[1..])
  {
    ExtrasTail(items, public, rs);
    if ReadsExtras(items[1..], public, rs[1..]) {
      forall i | 0 <= i < |rs| ensures rs[i].routeName.Some? {
        if i > 0 { assert rs[i] == rs[1..][i - 1]; }
      }
      UnseenTail(rs, seen, name);
    }
  }

  lemma {:induction false} ExtrasHead(items: seq<RawRoute>, seen: set<string>, public: Route, rs: seq<Route>)
    requires items != []
    ensures ExtrasFrom(items, seen, public) == Ok(rs)
       <==> && rs != [] && OneExtra(items[0], seen, public) == Ok(rs[0])
            && ExtrasFrom(items[1..], seen + {Cleaned(items[0].name)}, public) == Ok(rs[1..])
  {
    if rs != [] {
      assert rs == [rs[0]] + rs[1..];
    }
  }

  lemma {:induction false} ExtrasIff(items: seq<RawRoute>, seen: set<string>, public: Route, rs: seq<Route>)
    ensures ExtrasFrom(items, seen, public) == Ok(rs) <==> ReadsUnseen(items, seen, public, rs)
    decreases |items|
  {
    if items != [] {
      ExtrasHead(items, seen, public, rs);
      if rs != [] {
        OneExtraIff(items[0], seen, public, rs[0]);
        if OneExtra(items[0], seen, public) == Ok(rs[0]) {
          var name := rs[0].routeName.value;
          CleanedIff(items[0].name, name);
          ExtrasIff(items[1..], seen + {name}, public, rs[1..]);
          UnseenCons(items, seen, public, rs, name);
        }
      }
    }
  }

  // ---------------------------------------------------------------- the gateway

  /** The routes of a gateway are exactly those its resource describes; when it describes none, mapping fails. */
  lemma {:induction false} RoutesIff(public: Option<RawRoute>, admin: Option<RawRoute>, extras: seq<RawRoute>,
                                     g: GatewayRoutes)
    ensures MapRoutes(public, admin, extras) == Ok(g) <==> ReadsRoutes(public, admin, extras, g)
  {
    if public.Some? {
      RouteIff(public.value, Public, None, g.public);
      ExtrasIff(extras, {}, g.public, g.extras);
      if admin.Some? && g.admin.Some? { RouteIff(admin.value, Admin, Some(g.public), g.admin.value); }
    }
  }

  lemma {:induction false} ExtraSuffixesAre(rs: seq<Route>, s: string)
    requires forall i | 0 <= i < |rs| :: rs[i].routeName.Some? && rs[i].routeName.value != ""
    ensures s in ExtraSuffixes(rs) <==> exists i :: 0 <= i < |rs| && rs[i].manage && rs[i].routeName == Some(s)
    decreases |rs|
  {
    if rs != [] {
      var tail := rs[1..];
      assert forall i | 0 <= i < |tail| :: tail[i] == rs[i + 1];
      ExtraSuffixesAre(tail, s);
      if i :| 0 <= i < |rs| && rs[i].manage && rs[i].routeName == Some(s) {
        if i > 0 { assert tail[i - 1].manage; }
      }
    }
  }

  lemma {:induction false} ExtrasRendered(items: seq<RawRoute>, public: Route, rs: seq<Route>, s: string)
    requires ReadsExtras(items, public, rs)
    ensures s in ExtraSuffixes(rs)
       <==> exists i :: 0 <= i < |items| && items[i].manage != Some(false) && Reads(items[i].name, s)
  {
    forall i | 0 <= i < |items|
      ensures rs[i].routeName.Some? && rs[i].routeName.value != "" && rs[i].manage == (items[i].manage != Some(false))
      ensures Reads(items[i].name, s) <==> rs[i].routeName == Some(s)
    {
      assert ReadsExtra(items[i], public, rs[i]);
      CleanedIff(items[i].name, s);
      CleanedIff(items[i].name, rs[i].routeName.value);
    }
    ExtraSuffixesAre(rs, s);
  }

  lemma {:induction false} SuffixesAre(g: GatewayRoutes, s: string)
    ensures s in Suffixes(g)
       <==> (s == "public" && g.public.manage) || (s == "admin" && g.admin.Some? && g.admin.value.manage)
            || s in ExtraSuffixes(g.extras)
  {
  }

  /** Which HTTPRoutes a gateway gets: `public`, `admin` if there is an admin route, and one per extra item under its
      name, each unless its own `manage` is off. */
  lemma {:induction false} RenderedAre(public: Option<RawRoute>, admin: Option<RawRoute>, extras: seq<RawRoute>,
                                       g: GatewayRoutes, s: string)
    requires MapRoutes(public, admin, extras) == Ok(g)
    ensures s in Suffixes(g)
       <==> || (s == "public" && public.value.manage != Some(false))
            || (s == "admin" && admin.Some? && admin.value.manage != Some(false))
            || exists i :: 0 <= i < |extras| && extras[i].manage != Some(false) && Reads(extras[i].name, s)
  {
    RoutesIff(public, admin, extras, g);
    ExtrasRendered(extras, g.public, g.extras, s);
    SuffixesAre(g, s);
  }
}
