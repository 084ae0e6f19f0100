/** Rendering one gateway's artifact bundle: sidecars, registry and skills
    (`sidecar.rs`, `registry.rs`, `skills.rs`, `bundle.rs`). */
module Artifacts {
  import opened Common
  import Naming

  datatype TaskSupport = Forbidden | Optional | Required
  datatype ToolOverride = ToolOverride(name: string, readOnly: bool, taskSupport: Option<TaskSupport>)

  datatype Upstream = Upstream(
    name: string, url: string, bearerEnv: Option<string>, description: Option<string>,
    sidecar: Option<string>, enabled: bool, forwardIdentity: bool)

  datatype UpstreamSpec = UpstreamSpec(
    name: string, url: string, bearer: Option<string>, description: Option<string>,
    sidecar: Option<string>, enabled: bool, forwardIdentity: bool)

  datatype Entry = Entry(upstream: Upstream, toolOverrides: seq<ToolOverride>)

  datatype SkillArg = SkillArg(name: string, description: Option<string>, required: bool, default: Option<string>)
  datatype Skill = Skill(name: string, description: string, arguments: seq<SkillArg>, template: string)

  datatype File = File(path: string, data: string, sha256: string)

  datatype Bundle = Bundle(files: map<string, File>, registrySha256: string, bundleSha256: string, totalBytes: nat)

  datatype Fault =
    | BlankName | DuplicateName | BadName | BadUrl | BadBearer | NotHttp | TooMany
    | BadSkill | TooLarge | Graphql(e: Naming.NameError)

  type Outcome<T> = Result<T, Fault>

  /** Libraries and wire formats the renderers rely on but that are not modelled. */
  datatype Kernel = Kernel(
    sha256: string -> string,
    sidecarJson: (string, seq<ToolOverride>) -> string,
    registryJson: seq<UpstreamSpec> -> string,
    explicitHttp: string -> bool,
    skillYaml: Skill -> string,
    maxUpstreams: nat)

  const SHORT := 12
  const MAX_BUNDLE_BYTES := 1024 * 1024

  predicate IsHex(c: char) {
    '0' <= c <= '9' || 'a' <= c <= 'f'
  }

  /** A digest is 64 lower-case hexadecimal digits. */
  ghost predicate ValidKernel(k: Kernel) {
    forall s :: |k.sha256(s)| == 64 && forall i | 0 <= i < 64 :: IsHex(k.sha256(s)[i])
  }

  // ---------------------------------------------------------------- sidecar.rs

  function OverrideName(o: ToolOverride): string { o.name }

  ghost predicate SidecarOk(server: string, ovs: seq<ToolOverride>) {
    ovs == [] || (!Blank(server) && (forall i | 0 <= i < |ovs| :: !Blank(ovs[i].name)) && DistinctBy(OverrideName, ovs))
  }

  function SidecarPath(server: string, digest: string): string {
    "specs/" + server + "-" + (if |digest| < SHORT then digest else digest[..SHORT]) + ".json"
  }

  function SidecarFile(k: Kernel, server: string, ovs: seq<ToolOverride>): File {
    var text := k.sidecarJson(server, SortBy(OverrideName, ovs));
    File(SidecarPath(server, k.sha256(text)), text, k.sha256(text))
  }

  function SidecarOf(k: Kernel, e: Entry): Option<File> {
    if e.toolOverrides == [] then None else Some(SidecarFile(k, e.upstream.name, e.toolOverrides))
  }

  /** `render_sidecar`. */
  method RenderSidecar(k: Kernel, server: string, ovs: seq<ToolOverride>) returns (r: Outcome<Option<File>>)
    ensures r.Ok? <==> SidecarOk(server, ovs)
    ensures r.Ok? ==> r.value == if ovs == [] then None else Some(SidecarFile(k, server, ovs))
  {
    if ovs == [] {
      return Ok(None);
    }
    if Blank(server) {
      return Err(BlankName);
    }
    var seen: set<string> := {};
    var tools: seq<ToolOverride> := [];
    for i := 0 to |ovs|
      invariant tools == ovs[..i]
      invariant seen == set j | 0 <= j < i :: ovs[j].name
      invariant forall j | 0 <= j < i :: !Blank(ovs[j].name)
      invariant DistinctBy(OverrideName, ovs[..i])
    {
      var ov := ovs[i];
      if Blank(ov.name) {
        return Err(BlankName);
      }
      if ov.name in seen {
        return Err(DuplicateName);
      }
      seen := seen + {ov.name};
      tools := tools + [ov];
    }
    assert tools == ovs;
    tools := SortBy(OverrideName, tools);
    var text := k.sidecarJson(server, tools);
    var digest := k.sha256(text);
    return Ok(Some(File(SidecarPath(server, digest), text, digest)));
  }

  // ---------------------------------------------------------------- registry.rs

  function UpstreamName(u: Upstream): string { u.name }

  predicate IsEnvToken(s: string) {
    s != [] && forall i | 0 <= i < |s| ::
      '0' <= s[i] <= '9' || 'a' <= s[i] <= 'z' || 'A' <= s[i] <= 'Z' || s[i] == '_'
  }

  predicate SpecOk(u: Upstream) {
    !Blank(u.name) && !Blank(u.url) && (u.bearerEnv.Some? ==> IsEnvToken(u.bearerEnv.value))
  }

  function Reference(env: string): string {
    "${" + env + "}"
  }

  function SpecOf(u: Upstream): UpstreamSpec {
    UpstreamSpec(u.name, u.url, if u.bearerEnv.Some? then Some(Reference(u.bearerEnv.value)) else None,
                 u.description, u.sidecar, u.enabled, u.forwardIdentity)
  }

  function SpecsOf(us: seq<Upstream>): (r: seq<UpstreamSpec>)
    ensures |r| == |us| && forall i | 0 <= i < |us| :: r[i] == SpecOf(us[i])
  {
    seq(|us|, i requires 0 <= i < |us| => SpecOf(us[i]))
  }

  function NamesOf(us: seq<Upstream>): (r: seq<string>)
    ensures |r| == |us| && forall i | 0 <= i < |us| :: r[i] == us[i].name
  {
    seq(|us|, i requires 0 <= i < |us| => us[i].name)
  }

  /** `to_upstream_spec`. */
  method ToUpstreamSpec(u: Upstream) returns (r: Outcome<UpstreamSpec>)
    ensures r.Ok? <==> SpecOk(u)
    ensures r.Ok? ==> r.value == SpecOf(u)
  {
    if Blank(u.name) {
      return Err(BlankName);
    }
    if Blank(u.url) {
      return Err(BadUrl);
    }
    if u.bearerEnv.Some? && !IsEnvToken(u.bearerEnv.value) {
      return Err(BadBearer);
    }
    return Ok(SpecOf(u));
  }

  ghost predicate RegistryOk(k: Kernel, us: seq<Upstream>) {
    var sorted := SortBy(UpstreamName, us);
    && |us| <= k.maxUpstreams
    && DistinctBy(UpstreamName, us)
    && Naming.NamesOk(NamesOf(sorted))
    && (forall i | 0 <= i < |sorted| :: SpecOk(sorted[i]))
    && (us != [] ==> k.explicitHttp(k.registryJson(SpecsOf(sorted))))
  }

  function RegistryFile(k: Kernel, us: seq<Upstream>): File {
    var text := k.registryJson(SpecsOf(SortBy(UpstreamName, us)));
    File("registry.json", text, k.sha256(text))
  }

  /** The loop over the names with its `seen` set. */
  method NamesDistinct(sorted: seq<Upstream>) returns (ok: bool)
    ensures ok <==> DistinctBy(UpstreamName, sorted)
  {
    var seen: set<string> := {};
    for i := 0 to |sorted|
      invariant seen == set j | 0 <= j < i :: sorted[j].name
      invariant DistinctBy(UpstreamName, sorted[..i])
    {
      if sorted[i].name in seen {
        return false;
      }
      seen := seen + {sorted[i].name};
    }
    assert sorted[..|sorted|] == sorted;
    ok := true;
  }

  /** The loop converting every upstream; the first bad one fails it. */
  method CollectSpecs(sorted: seq<Upstream>) returns (r: Outcome<seq<UpstreamSpec>>)
    ensures r.Ok? <==> forall i | 0 <= i < |sorted| :: SpecOk(sorted[i])
    ensures r.Ok? ==> r.value == SpecsOf(sorted)
  {
    var specs: seq<UpstreamSpec> := [];
    for i := 0 to |sorted|
      invariant specs == SpecsOf(sorted)[..i]
      invariant forall j | 0 <= j < i :: SpecOk(sorted[j])
    {
      var spec := ToUpstreamSpec(sorted[i]);
      if spec.Err? {
        return Err(spec.error);
      }
      specs := specs + [spec.value];
    }
    r := Ok(specs);
  }

  /** `render_registry`. */
  method RenderRegistry(k: Kernel, us: seq<Upstream>) returns (r: Outcome<File>)
    ensures r.Ok? <==> RegistryOk(k, us)
    ensures r.Ok? ==> r.value == RegistryFile(k, us)
  {
    if |us| > k.maxUpstreams {
      return Err(TooMany);
    }
    var sorted := SortBy(UpstreamName, us);
    var distinct := NamesDistinct(sorted);
    SortedDistinct(us);
    if !distinct {
      return Err(DuplicateName);
    }
    var clash := Naming.RejectGraphqlNameCollisions(NamesOf(sorted));
    if clash.Some? {
      return Err(Graphql(clash.value));
    }
    var specs := CollectSpecs(sorted);
    if specs.Err? {
      return Err(specs.error);
    }
    var text := k.registryJson(specs.value);
    if !k.explicitHttp(text) && specs.value != [] {
      return Err(NotHttp);
    }
    return Ok(File("registry.json", text, k.sha256(text)));
  }

  lemma {:induction false} SortedDistinct(us: seq<Upstream>)
    ensures DistinctBy(UpstreamName, SortBy(UpstreamName, us)) <==> DistinctBy(UpstreamName, us)
  {
    var sorted := SortBy(UpstreamName, us);
    SortByFacts(UpstreamName, us);
    if DistinctBy(UpstreamName, us) { DistinctIsOrderFree(UpstreamName, us, sorted); }
    if DistinctBy(UpstreamName, sorted) { DistinctIsOrderFree(UpstreamName, sorted, us); }
  }

  // ---------------------------------------------------------------- skills.rs

  predicate SkillNameChar(c: char) {
    'a' <= c <= 'z' || '0' <= c <= '9' || c == '_' || c == '-'
  }

  predicate HasDunder(s: string) {
    exists i :: 0 <= i < |s| - 1 && s[i] == '_' && s[i + 1] == '_'
  }

  predicate ValidSkillName(s: string) {
    1 <= |s| <= 64 && (forall i | 0 <= i < |s| :: SkillNameChar(s[i])) && !HasDunder(s)
  }

  function SkillName(s: Skill): string { s.name }
  function ArgName(a: SkillArg): string { a.name }

  ghost predicate SkillOk(s: Skill) {
    && ValidSkillName(s.name) && !Blank(s.description) && !Blank(s.template)
    && (forall i | 0 <= i < |s.arguments| :: !Blank(s.arguments[i].name) && s.arguments[i].default.None?)
    && DistinctBy(ArgName, s.arguments)
  }

  function SkillPath(name: string): string {
    "skills/" + name + ".yaml"
  }

  function SkillFile(k: Kernel, s: Skill): File {
    var text := k.skillYaml(s);
    File(SkillPath(s.name), text, k.sha256(text))
  }

  /** `render_skill`. */
  method RenderSkill(k: Kernel, s: Skill) returns (r: Outcome<File>)
    ensures r.Ok? <==> SkillOk(s)
    ensures r.Ok? ==> r.value == SkillFile(k, s)
  {
    if !ValidSkillName(s.name) || Blank(s.description) || Blank(s.template) {
      return Err(BadSkill);
    }
    var seen: set<string> := {};
    for i := 0 to |s.arguments|
      invariant seen == set j | 0 <= j < i :: s.arguments[j].name
      invariant forall j | 0 <= j < i :: !Blank(s.arguments[j].name) && s.arguments[j].default.None?
      invariant DistinctBy(ArgName, s.arguments[..i])
    {
      var arg := s.arguments[i];
      if Blank(arg.name) {
        return Err(BadSkill);
      }
      if arg.name in seen {
        return Err(DuplicateName);
      }
      seen := seen + {arg.name};
      if arg.required && arg.default.Some? {
        return Err(BadSkill);
      }
      if arg.default.Some? {
        return Err(BadSkill);
      }
    }
    assert s.arguments[..|s.arguments|] == s.arguments;
    return Ok(SkillFile(k, s));
  }

  /** `reject_duplicate_skill_names`. */
  method RejectDuplicateSkillNames(skills: seq<Skill>) returns (ok: bool)
    ensures ok <==> DistinctBy(SkillName, skills)
  {
    var seen: set<string> := {};
    for i := 0 to |skills|
      invariant seen == set j | 0 <= j < i :: skills[j].name
      invariant DistinctBy(SkillName, skills[..i])
    {
      if skills[i].name in seen {
        return false;
      }
      seen := seen + {skills[i].name};
    }
    assert skills[..|skills|] == skills;
    return true;
  }
}
