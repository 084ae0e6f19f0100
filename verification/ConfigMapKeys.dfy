/** ConfigMap keys for artifact paths: `flatten_configmap_key`, the `sed` of the expand script that
    undoes it, and the ConfigMap they fill (`render_gateway_manifests.py`). */
module ConfigMapKeys {
  import opened Common
  import opened TextMeaning
  import opened Artifacts
  import opened Bundle
  import opened BundleFacts

  /** `path.replace("/", "__")`. */
  function Flatten(path: string): string {
    if path == [] then []
    else (if path[0] == '/' then "__" else [path[0]]) + Flatten(path[1..])
  }

  /** `sed 's#__#/#g'`: leftmost, non-overlapping. */
  function Expand(key: string): string {
    if |key| >= 2 && key[0] == '_' && key[1] == '_' then "/" + Expand(key[2..])
    else if key == [] then []
    else [key[0]] + Expand(key[1..])
  }

  /** No underscore directly in front of another underscore or a slash. */
  predicate Flattenable(path: string) {
    forall i | 0 <= i < |path| - 1 && path[i] == '_' :: path[i + 1] != '_' && path[i + 1] != '/'
  }

  lemma {:induction false} ExpandSlash(rest: string)
    ensures Expand("__" + rest) == "/" + Expand(rest)
  {
    assert ("__" + rest)[2..] == rest;
  }

  lemma {:induction false} ExpandPlain(c: char, rest: string)
    requires c != '_' || rest == [] || rest[0] != '_'
    ensures Expand([c] + rest) == [c] + Expand(rest)
  {
    assert ([c] + rest)[1..] == rest;
  }

  lemma {:induction false} FlattenHead(path: string)
    ensures path == [] ==> Flatten(path) == []
    ensures path != [] ==> Flatten(path) != [] && Flatten(path)[0] == if path[0] == '/' then '_' else path[0]
  {
  }

  lemma {:induction false} FlattenableTail(path: string)
    requires path != []
    ensures Flattenable(path) <==>
            (Flattenable(path[1..]) && (path[0] == '_' && |path| > 1 ==> path[1] != '_' && path[1] != '/'))
  {
    var t := path[1..];
    assert forall i | 0 <= i < |t| :: t[i] == path[i + 1];
    if Flattenable(t) && (path[0] == '_' && |path| > 1 ==> path[1] != '_' && path[1] != '/') {
      forall i | 0 <= i < |path| - 1 && path[i] == '_' ensures path[i + 1] != '_' && path[i + 1] != '/' {
        if i > 0 { assert t[i - 1] == '_'; }
      }
    }
    if Flattenable(path) {
      forall i | 0 <= i < |t| - 1 && t[i] == '_' ensures t[i + 1] != '_' && t[i + 1] != '/' {
        assert path[i + 1] == '_';
      }
    }
  }

  /** An underscore before an underscore or a slash comes back as a slash. */
  lemma {:induction false} BadUnderscore(path: string)
    requires |path| > 1 && path[0] == '_' && (path[1] == '_' || path[1] == '/')
    ensures Expand(Flatten(path)) != path
  {
    FlattenHead(path[1..]);
    var rest := Flatten(path[1..])[1..];
    assert Flatten(path) == "__" + rest;
    ExpandSlash(rest);
    assert Expand(Flatten(path))[0] == '/';
  }

  /** The expand script recovers a path exactly when it is flattenable. */
  lemma {:induction false} ExpandUndoesFlattenIff(path: string)
    ensures Expand(Flatten(path)) == path <==> Flattenable(path)
  {
    if path != [] {
      var t := path[1..];
      assert path == [path[0]] + t;
      ExpandUndoesFlattenIff(t);
      FlattenableTail(path);
      FlattenHead(t);
      if path[0] == '/' {
        ExpandSlash(Flatten(t));
        assert "/" + Expand(Flatten(t)) == path <==> Expand(Flatten(t)) == t by {
          assert ("/" + Expand(Flatten(t)))[1..] == Expand(Flatten(t));
        }
      } else if path[0] == '_' && |path| > 1 && (path[1] == '_' || path[1] == '/') {
        BadUnderscore(path);
      } else {
        ExpandPlain(path[0], Flatten(t));
        assert ([path[0]] + Expand(Flatten(t)))[1..] == Expand(Flatten(t));
      }
    }
  }

  /** Flattenable paths never share a key. */
  lemma {:induction false} FlattenInjective(a: string, b: string)
    requires Flattenable(a) && Flattenable(b) && Flatten(a) == Flatten(b)
    ensures a == b
  {
    ExpandUndoesFlattenIff(a);
    ExpandUndoesFlattenIff(b);
  }

  /** Other paths can: both of these are legal paths with one key. */
  lemma {:induction false} FlattenCollision()
    ensures Flatten("a/b") == Flatten("a__b")
  {
    assert "a/b"[1..] == "/b" && "/b"[1..] == "b" && "b"[1..] == "";
    assert "a__b"[1..] == "__b" && "__b"[1..] == "_b" && "_b"[1..] == "b";
    assert Flatten("b") == "b" && Flatten("_b") == "_b" && Flatten("/b") == "__b" && Flatten("__b") == "__b";
  }

  // ---------------------------------------------------------------- the paths a bundle emits

  /** No double underscore inside a server name; an MCP name additionally has no slash. */
  predicate PlainServer(s: string) {
    !HasDunder(s) && '/' !in s
  }

  lemma {:induction false} Joined(a: string, b: string)
    requires Flattenable(a) && Flattenable(b)
    requires a != [] && b != [] && a[|a| - 1] == '_' ==> b[0] != '_' && b[0] != '/'
    ensures Flattenable(a + b)
  {
    var s := a + b;
    forall i | 0 <= i < |s| - 1 && s[i] == '_' ensures s[i + 1] != '_' && s[i + 1] != '/' {
      if i + 1 < |a| {
        assert a[i] == '_' && s[i + 1] == a[i + 1];
      } else if i >= |a| {
        assert b[i - |a|] == '_' && s[i + 1] == b[i + 1 - |a|];
      }
    }
  }

  lemma {:induction false} PlainIsFlattenable(s: string)
    requires PlainServer(s)
    ensures Flattenable(s)
  {
    forall i | 0 <= i < |s| - 1 && s[i] == '_' ensures s[i + 1] != '_' && s[i + 1] != '/' {
      assert s[i + 1] in s;
    }
  }

  lemma {:induction false} SidecarPathFlattenable(server: string, digest: string)
    requires PlainServer(server) && |digest| >= SHORT && forall i | 0 <= i < |digest| :: IsHex(digest[i])
    ensures Flattenable(SidecarPath(server, digest))
  {
    PlainIsFlattenable(server);
    var tail := "-" + digest[..SHORT] + ".json";
    assert Flattenable(tail) by {
      forall i | 0 <= i < |tail| ensures tail[i] != '_' {
        if 1 <= i <= SHORT { assert tail[i] == digest[i - 1]; }
      }
    }
    Joined("specs/", server);
    Joined("specs/" + server, tail);
    assert SidecarPath(server, digest) == "specs/" + server + tail;
  }

  lemma {:induction false} SkillPathFlattenable(name: string)
    requires ValidSkillName(name)
    ensures Flattenable(SkillPath(name))
  {
    assert PlainServer(name);
    PlainIsFlattenable(name);
    Joined("skills/", name);
    Joined("skills/" + name, ".yaml");
  }

  ghost predicate PlainServers(entries: seq<Entry>) {
    forall i | 0 <= i < |entries| :: PlainServer(entries[i].upstream.name)
  }

  const TOML := "vmcp.toml"

  /** The shape of a bundle path: a directory letter and a long enough tail, and no outer blanks. */
  predicate BundlePath(p: string) {
    && Flattenable(p) && p != TOML && |p| > 0
    && !IsSpace(p[0]) && !IsSpace(p[|p| - 1])
  }

  lemma {:induction false} SidecarIsBundlePath(k: Kernel, entries: seq<Entry>, f: File)
    requires ValidKernel(k) && PlainServers(entries)
    requires f in Sidecars(k, SortBy(EntryName, entries))
    ensures BundlePath(f.path)
  {
    var sorted := SortBy(EntryName, entries);
    SortByFacts(EntryName, entries);
    SidecarsMembers(k, sorted);
    var i :| 0 <= i < |sorted| && SidecarOf(k, sorted[i]) == Some(f);
    assert sorted[i] in multiset(entries);
    SidecarPathFlattenable(sorted[i].upstream.name, f.sha256);
    assert f.path[0] == 's' && f.path[|f.path| - 1] == 'n';
  }

  lemma {:induction false} SkillIsBundlePath(k: Kernel, skills: seq<Skill>, f: File)
    requires forall i | 0 <= i < |skills| :: SkillOk(skills[i])
    requires f in SortBy(FilePath, SkillFiles(k, skills))
    ensures BundlePath(f.path)
  {
    SortByFacts(FilePath, SkillFiles(k, skills));
    assert f in multiset(SkillFiles(k, skills));
    var j :| 0 <= j < |skills| && SkillFiles(k, skills)[j] == f;
    SkillPathFlattenable(skills[j].name);
    assert f.path[0] == 's' && f.path[|f.path| - 1] == 'l';
  }

  lemma {:induction false} RegistryIsBundlePath()
    ensures BundlePath("registry.json")
  {
    var p := "registry.json";
    assert forall i | 0 <= i < |p| :: p[i] != '_';
    assert p[0] == 'r' && p[|p| - 1] == 'n';
  }

  lemma {:induction false} ListedIsBundlePath(k: Kernel, entries: seq<Entry>, skills: seq<Skill>, f: File)
    requires ValidKernel(k) && PlainServers(entries)
    requires forall i | 0 <= i < |skills| :: SkillOk(skills[i])
    requires f in FileList(k, entries, skills)
    ensures BundlePath(f.path)
  {
    if f in Sidecars(k, SortBy(EntryName, entries)) {
      SidecarIsBundlePath(k, entries, f);
    } else if f in SortBy(FilePath, SkillFiles(k, skills)) {
      SkillIsBundlePath(k, skills, f);
    } else {
      RegistryIsBundlePath();
    }
  }

  /** Every path a bundle emits for plain server names survives the ConfigMap and is not the config file's. */
  lemma {:induction false} BundlePathsAreFlattenable(k: Kernel, entries: seq<Entry>, skills: seq<Skill>, p: string)
    requires ValidKernel(k) && BundleOk(k, entries, skills) && PlainServers(entries)
    requires p in BundleOf(k, entries, skills).files
    ensures BundlePath(p)
  {
    var fs := FileList(k, entries, skills);
    FileKeys(fs);
    var i :| 0 <= i < |fs| && Paths(fs)[i] == p;
    ListedIsBundlePath(k, entries, skills, fs[i]);
  }

  // ---------------------------------------------------------------- the ConfigMap

  /** Empty paths and outer blanks raise. */
  predicate LegalPath(path: string) {
    path != "" && Strip(path) == path
  }

  /** `flatten_configmap_key`. */
  function FlattenKey(path: string): Option<string> {
    if LegalPath(path) then Some(Flatten(path)) else None
  }

  /** A path is refused exactly when it is empty or has white space at an end. */
  lemma {:induction false} RefusedIff(path: string)
    ensures FlattenKey(path).None? <==> path == "" || White(path[0]) || White(path[|path| - 1])
  {
    if path != "" {
      SpaceIs(path[0]);
      SpaceIs(path[|path| - 1]);
      if !White(path[0]) && !White(path[|path| - 1]) { StripIdentity(path); }
      StripTrims(path);
    }
  }

  function PathBy(parts: seq<string>, sep: string): string {
    if parts == [] then "" else if |parts| == 1 then parts[0] else parts[0] + sep + PathBy(parts[1..], sep)
  }

  lemma {:induction false} FlattenChar(c: char, rest: string)
    ensures Flatten([c] + rest) == (if c == '/' then "__" else [c]) + Flatten(rest)
  {
    assert ([c] + rest)[1..] == rest;
  }

  lemma {:induction false} HeadFirst(a: string, b: string)
    requires a != []
    ensures a + b == [a[0]] + (a[1..] + b)
  {
  }

  lemma {:induction false} FlattenPart(part: string, rest: string)
    requires forall i | 0 <= i < |part| :: part[i] != '/'
    ensures Flatten(part + rest) == part + Flatten(rest)
  {
    if part == [] {
      assert part + rest == rest && part + Flatten(rest) == Flatten(rest);
    } else {
      HeadFirst(part, rest);
      HeadFirst(part, Flatten(rest));
      FlattenPart(part[1..], rest);
      FlattenChar(part[0], part[1..] + rest);
    }
  }

  /** The key of a path is its parts joined by two underscores. */
  lemma {:induction false} KeyIs(parts: seq<string>)
    requires forall n, i | 0 <= n < |parts| && 0 <= i < |parts[n]| :: parts[n][i] != '/'
    ensures Flatten(PathBy(parts, "/")) == PathBy(parts, "__")
  {
    if |parts| == 1 {
      FlattenPart(parts[0], []);
      assert parts[0] + [] == parts[0];
    } else if |parts| > 1 {
      KeyIs(parts[1..]);
      KeyStep(parts[0], PathBy(parts[1..], "/"));
      assert parts[0] + "__" + Flatten(PathBy(parts[1..], "/")) == Flatten(PathBy(parts, "/"));
    }
  }

  lemma {:induction false} KeyStep(part: string, rest: string)
    requires forall i | 0 <= i < |part| :: part[i] != '/'
    ensures Flatten(part + "/" + rest) == part + "__" + Flatten(rest)
  {
    FlattenPart(part, ['/'] + rest);
    FlattenChar('/', rest);
    assert part + "/" + rest == part + (['/'] + rest);
    assert part + "__" + Flatten(rest) == part + ("__" + Flatten(rest));
  }

  ghost predicate AllBundlePaths(files: map<string, File>) {
    forall p | p in files :: BundlePath(p)
  }

  /** Distinct files get distinct keys. */
  lemma {:induction false} KeysDiffer(files: map<string, File>, p: string, q: string)
    requires AllBundlePaths(files) && p in files && q in files && p != q
    ensures Flatten(p) != Flatten(q)
  {
    assert BundlePath(p) && BundlePath(q);
    if Flatten(p) == Flatten(q) {
      FlattenInjective(p, q);
    }
  }

  /** No file takes the key of the config. */
  lemma {:induction false} ConfigKeyIsFree(files: map<string, File>, p: string)
    requires AllBundlePaths(files) && p in files
    ensures Flatten(p) != TOML
  {
    assert BundlePath(p);
    ExpandUndoesFlattenIff(p);
    TomlExpandsToItself(TOML);
  }

  /** `data` holds the file at `p` under its key. */
  ghost predicate Holds(data: map<string, string>, files: map<string, File>, key: string -> string, p: string) {
    p in files && key(p) in data && data[key(p)] == files[p].data
  }

  /** `data` holds the files of `done`, one key each. */
  ghost predicate Filled(files: map<string, File>, key: string -> string, done: set<string>,
                         data: map<string, string>) {
    && done <= files.Keys && |data| == |done|
    && (forall p | p in done :: Holds(data, files, key, p))
    && KeysFrom(key, done, data)
  }

  /** Every key of the data belongs to a file of `done`. */
  ghost predicate KeysFrom(key: string -> string, done: set<string>, data: map<string, string>) {
    forall k | k in data :: exists p :: p in done && k == key(p)
  }

  lemma {:induction false} FillKeys(key: string -> string, done: set<string>, done': set<string>,
                                    data: map<string, string>, p: string, v: string)
    requires KeysFrom(key, done, data) && done' == done + {p}
    ensures KeysFrom(key, done', data[key(p) := v])
  {
    var data' := data[key(p) := v];
    forall k | k in data' ensures exists q :: q in done' && k == key(q) {
      if k in data {
        var q :| q in done && k == key(q);
        assert q in done';
      } else {
        assert p in done';
      }
    }
  }

  lemma {:induction false} FillValues(files: map<string, File>, key: string -> string, done: set<string>,
                                      data: map<string, string>, p: string)
    requires p in files && done <= files.Keys && forall q | q in done :: Holds(data, files, key, q)
    requires forall q | q in done :: key(q) != key(p)
    ensures forall q | q in done || q == p :: Holds(data[key(p) := files[p].data], files, key, q)
  {
    var data' := data[key(p) := files[p].data];
    forall q | q in done || q == p ensures Holds(data', files, key, q) {
      if q != p { assert Holds(data, files, key, q); }
    }
  }

  lemma {:induction false} FillOne(files: map<string, File>, key: string -> string, done: set<string>,
                                   data: map<string, string>, p: string)
    requires Filled(files, key, done, data) && p in files && p !in done
    requires forall q | q in files && q != p :: key(q) != key(p)
    ensures Filled(files, key, done + {p}, data[key(p) := files[p].data])
  {
    assert key(p) !in data;
    FillKeys(key, done, done + {p}, data, p, files[p].data);
    FillValues(files, key, done, data, p);
  }

  lemma {:induction false} FillFile(files: map<string, File>, done: set<string>, data: map<string, string>, p: string)
    requires AllBundlePaths(files) && Filled(files, Flatten, done, data) && p in files && p !in done
    ensures Filled(files, Flatten, done + {p}, data[Flatten(p) := files[p].data])
  {
    forall q | q in files && q != p ensures Flatten(q) != Flatten(p) { KeysDiffer(files, p, q); }
    FillOne(files, Flatten, done, data, p);
  }

  lemma {:induction false} AddConfig(files: map<string, File>, data: map<string, string>, toml: string)
    requires AllBundlePaths(files) && Filled(files, Flatten, files.Keys, data)
    ensures TOML !in data && |data[TOML := toml]| == |files| + 1
    ensures forall p | p in files :: Holds(data[TOML := toml], files, Flatten, p)
  {
    forall p | p in files ensures Flatten(p) != TOML && Holds(data, files, Flatten, p) { ConfigKeyIsFree(files, p); }
  }

  /** The ConfigMap's data: the config, every file under its flat key, and nothing else. */
  ghost predicate IsConfigMap(data: map<string, string>, files: map<string, File>, toml: string) {
    && TOML in data && data[TOML] == toml
    && (forall p | p in files :: Holds(data, files, Flatten, p))
    && (forall k | k in data && k != TOML :: FromFile(files, k))
  }

  ghost predicate FromFile(files: map<string, File>, k: string) {
    exists p :: p in files && k == Flatten(p)
  }

  lemma {:induction false} KeysAreFiles(files: map<string, File>, data: map<string, string>, k: string)
    requires KeysFrom(Flatten, files.Keys, data) && k in data
    ensures FromFile(files, k)
  {
    var p :| p in files.Keys && k == Flatten(p);
    assert p in files;
  }

  /** The ConfigMap data: each file under its flat key, then the rendered config. */
  method ConfigMapData(files: map<string, File>, toml: string) returns (r: Option<map<string, string>>)
    ensures r.Some? <==> forall p | p in files :: LegalPath(p)
    ensures r.Some? ==> TOML in r.value && r.value[TOML] == toml
    ensures r.Some? ==> forall k | k in r.value && k != TOML :: FromFile(files, k)
    ensures r.Some? && AllBundlePaths(files) ==> |r.value| == |files| + 1 && IsConfigMap(r.value, files, toml)
  {
    var data := FlatData(files);
    if data.None? {
      return None;
    }
    forall k | k in data.value ensures FromFile(files, k) { KeysAreFiles(files, data.value, k); }
    if AllBundlePaths(files) {
      AddConfig(files, data.value, toml);
    }
    return Some(data.value[TOML := toml]);
  }

  method StoreOne(files: map<string, File>, ghost good: bool, ghost done: set<string>, data: map<string, string>,
                  p: string)
    returns (r: map<string, string>)
    requires p in files && p !in done && LegalPath(p)
    requires KeysFrom(Flatten, done, data)
    requires good ==> AllBundlePaths(files) && Filled(files, Flatten, done, data)
    ensures KeysFrom(Flatten, done + {p}, r)
    ensures good ==> Filled(files, Flatten, done + {p}, r)
  {
    FillKeys(Flatten, done, done + {p}, data, p, files[p].data);
    if good {
      FillFile(files, done, data, p);
    }
    r := data[FlattenKey(p).value := files[p].data];
  }

  method FlatData(files: map<string, File>) returns (r: Option<map<string, string>>)
    ensures r.Some? <==> forall p | p in files :: LegalPath(p)
    ensures r.Some? ==> KeysFrom(Flatten, files.Keys, r.value)
    ensures r.Some? && AllBundlePaths(files) ==> Filled(files, Flatten, files.Keys, r.value)
  {
    ghost var good := AllBundlePaths(files);
    var data: map<string, string> := map[];
    var rest := files.Keys;
    while rest != {}
      invariant rest <= files.Keys
      invariant forall p | p in files && p !in rest :: LegalPath(p)
      invariant KeysFrom(Flatten, files.Keys - rest, data)
      invariant good ==> Filled(files, Flatten, files.Keys - rest, data)
    {
      var p :| p in rest;
      if !LegalPath(p) {
        return None;
      }
      data := StoreOne(files, good, files.Keys - rest, data, p);
      assert files.Keys - (rest - {p}) == files.Keys - rest + {p};
      rest := rest - {p};
    }
    assert files.Keys - rest == files.Keys;
    return Some(data);
  }

  lemma {:induction false} TomlExpandsToItself(s: string)
    requires forall i | 0 <= i < |s| :: s[i] != '_'
    ensures Expand(s) == s
  {
    if s != [] {
      TomlExpandsToItself(s[1..]);
      assert s == [s[0]] + s[1..];
    }
  }

  lemma {:induction false} SurvivesExpansion(p: string)
    requires BundlePath(p)
    ensures FlattenKey(p) == Some(Flatten(p)) && Expand(Flatten(p)) == p
    ensures Expand(TOML) == TOML && Flatten(p) != TOML
  {
    StripIdentity(p);
    ExpandUndoesFlattenIff(p);
    TomlExpandsToItself(TOML);
  }

  // ---------------------------------------------------------------- the init container

  /** `dir` holds what copying every key of `data` to its expanded path leaves. */
  ghost predicate Copied(data: map<string, string>, done: set<string>, dir: map<string, string>) {
    && (forall k | k in done :: Expand(k) in dir)
    && (forall path | path in dir :: CopiedFrom(data, done, path, dir[path]))
  }

  ghost predicate CopiedFrom(data: map<string, string>, done: set<string>, path: string, text: string) {
    exists k :: k in done && k in data && Expand(k) == path && data[k] == text
  }

  lemma {:induction false} CopyOne(data: map<string, string>, done: set<string>, dir: map<string, string>, k: string)
    requires Copied(data, done, dir) && k in data
    ensures Copied(data, done + {k}, dir[Expand(k) := data[k]])
  {
    var done', dir' := done + {k}, dir[Expand(k) := data[k]];
    forall path | path in dir' ensures CopiedFrom(data, done', path, dir'[path]) {
      if path == Expand(k) {
        assert k in done';
      } else {
        var j :| j in done && j in data && Expand(j) == path && data[j] == dir[path];
        assert j in done';
      }
    }
  }

  /** The script's loop over the mounted keys, in any order; a later file replaces one of the same path. */
  method ExpandAll(data: map<string, string>) returns (dir: map<string, string>)
    ensures Copied(data, data.Keys, dir)
  {
    dir := map[];
    var rest := data.Keys;
    while rest != {}
      invariant rest <= data.Keys
      invariant Copied(data, data.Keys - rest, dir)
    {
      var k :| k in rest;
      CopyOne(data, data.Keys - rest, dir, k);
      assert data.Keys - (rest - {k}) == data.Keys - rest + {k};
      dir := dir[Expand(k) := data[k]];
      rest := rest - {k};
    }
    assert data.Keys - rest == data.Keys;
  }

  /** The files of a bundle at their paths, and the config at its own. */
  function BundleDirectory(files: map<string, File>, toml: string): map<string, string> {
    (map p | p in files :: files[p].data)[TOML := toml]
  }

  lemma {:induction false} DirectoryAt(files: map<string, File>, toml: string, p: string)
    requires p in files && p != TOML
    ensures p in BundleDirectory(files, toml) && BundleDirectory(files, toml)[p] == files[p].data
  {
  }

  lemma {:induction false} ConfigStays(files: map<string, File>, toml: string)
    ensures Expand(TOML) == TOML && TOML in BundleDirectory(files, toml) && BundleDirectory(files, toml)[TOML] == toml
  {
    TomlExpandsToItself(TOML);
  }

  /** Where a file's key goes. */
  lemma {:induction false} FileKeyGoes(files: map<string, File>, p: string, k: string)
    requires BundlePath(p) && k == Flatten(p)
    ensures Expand(k) == p && p != TOML
  {
    SurvivesExpansion(p);
  }

  /** Each key of the ConfigMap is copied to a path of the directory, with that path's text. */
  lemma {:induction false} KeyGoes(files: map<string, File>, toml: string, data: map<string, string>, k: string)
    requires AllBundlePaths(files) && IsConfigMap(data, files, toml) && k in data
    ensures Expand(k) in BundleDirectory(files, toml) && BundleDirectory(files, toml)[Expand(k)] == data[k]
  {
    ConfigStays(files, toml);
    if k != TOML {
      assert FromFile(files, k);
      var p :| p in files && k == Flatten(p);
      assert BundlePath(p) && Holds(data, files, Flatten, p);
      FileKeyGoes(files, p, k);
      DirectoryAt(files, toml, p);
    }
  }

  lemma {:induction false} CopiedIsThere(files: map<string, File>, toml: string, data: map<string, string>,
                                         dir: map<string, string>, path: string)
    requires AllBundlePaths(files) && IsConfigMap(data, files, toml) && Copied(data, data.Keys, dir) && path in dir
    ensures path in BundleDirectory(files, toml) && BundleDirectory(files, toml)[path] == dir[path]
  {
    assert CopiedFrom(data, data.Keys, path, dir[path]);
    var k :| k in data.Keys && k in data && Expand(k) == path && data[k] == dir[path];
    KeyGoes(files, toml, data, k);
  }

  /** And each path of the directory is one key's. */
  lemma {:induction false} KeyFor(files: map<string, File>, toml: string, data: map<string, string>, path: string)
    returns (k: string)
    requires AllBundlePaths(files) && IsConfigMap(data, files, toml) && path in BundleDirectory(files, toml)
    ensures k in data && Expand(k) == path
  {
    if path == TOML {
      k := TOML;
      ConfigStays(files, toml);
    } else {
      k := Flatten(path);
      assert path in files && BundlePath(path) && Holds(data, files, Flatten, path);
      FileKeyGoes(files, path, k);
    }
  }

  lemma {:induction false} EachIsCopied(files: map<string, File>, toml: string, data: map<string, string>,
                                        dir: map<string, string>, path: string)
    requires AllBundlePaths(files) && IsConfigMap(data, files, toml) && Copied(data, data.Keys, dir)
    requires path in BundleDirectory(files, toml)
    ensures path in dir
  {
    var k := KeyFor(files, toml, data, path);
    assert k in data.Keys;
  }

  /** After the init container ran over the ConfigMap of a bundle, the directory is exactly the bundle's files at
      their paths with their data, and the config. */
  lemma {:induction false} ExpandedDirectory(k: Kernel, entries: seq<Entry>, skills: seq<Skill>, toml: string,
                                             data: map<string, string>, dir: map<string, string>)
    requires ValidKernel(k) && BundleOk(k, entries, skills) && PlainServers(entries)
    requires IsConfigMap(data, BundleOf(k, entries, skills).files, toml) && Copied(data, data.Keys, dir)
    ensures dir == BundleDirectory(BundleOf(k, entries, skills).files, toml)
    ensures DirectoryReads(BundleOf(k, entries, skills).files, toml, dir)
  {
    var files := BundleOf(k, entries, skills).files;
    forall p | p in files ensures BundlePath(p) { BundlePathsAreFlattenable(k, entries, skills, p); }
    DirectoryOf(files, toml, data, dir);
    DirectorySpelled(files, toml, dir);
  }

  /** The config file and every file of the bundle, and nothing else. */
  predicate DirectoryReads(files: map<string, File>, toml: string, dir: map<string, string>) {
    && "vmcp.toml" !in files && dir.Keys == files.Keys + {"vmcp.toml"} && dir["vmcp.toml"] == toml
    && forall p | p in files :: dir[p] == files[p].data
  }

  lemma {:induction false} DirectorySpelled(files: map<string, File>, toml: string, dir: map<string, string>)
    requires AllBundlePaths(files) && dir == BundleDirectory(files, toml)
    ensures DirectoryReads(files, toml, dir)
  {
    assert TOML in files ==> BundlePath(TOML);
    forall p | p in files ensures p in dir && dir[p] == files[p].data {
      assert BundlePath(p);
    }
  }

  lemma {:induction false} DirectoryOf(files: map<string, File>, toml: string, data: map<string, string>,
                                       dir: map<string, string>)
    requires AllBundlePaths(files) && IsConfigMap(data, files, toml) && Copied(data, data.Keys, dir)
    ensures dir == BundleDirectory(files, toml)
  {
    var want := BundleDirectory(files, toml);
    forall path | path in dir ensures path in want && want[path] == dir[path] {
      CopiedIsThere(files, toml, data, dir, path);
    }
    forall path | path in want ensures path in dir { EachIsCopied(files, toml, data, dir, path); }
    assert dir.Keys == want.Keys;
  }
}
