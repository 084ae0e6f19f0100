/** What a rendered bundle guarantees: nothing overwritten, every reference resolved, sizes that add
    up, independence of input order, and digest material that determines the files. */
module BundleFacts {
  import opened Common
  import opened Artifacts
  import opened Bundle

  // ---------------------------------------------------------------- names in paths

  /** The hash suffix has a fixed length, so the server name can be read back from the path. */
  lemma {:induction false} SidecarPathInjective(a: string, d: string, b: string, e: string)
    requires |d| >= SHORT && |e| >= SHORT
    requires SidecarPath(a, d) == SidecarPath(b, e)
    ensures a == b && d[..SHORT] == e[..SHORT]
  {
    var p, q := SidecarPath(a, d), SidecarPath(b, e);
    assert p == "specs/" + a + ("-" + d[..SHORT] + ".json");
    assert q == "specs/" + b + ("-" + e[..SHORT] + ".json");
    assert |a| == |b|;
    assert p[6..6 + |a|] == a && q[6..6 + |b|] == b;
    assert p[6 + |a| + 1..6 + |a| + 1 + SHORT] == d[..SHORT];
    assert q[6 + |b| + 1..6 + |b| + 1 + SHORT] == e[..SHORT];
  }

  lemma {:induction false} SkillPathInjective(a: string, b: string)
    requires SkillPath(a) == SkillPath(b)
    ensures a == b
  {
    var p, q := SkillPath(a), SkillPath(b);
    assert p == "skills/" + a + ".yaml" && q == "skills/" + b + ".yaml";
    assert |a| == |b|;
    assert p[7..7 + |a|] == a && q[7..7 + |b|] == b;
  }

  /** Sidecars, the registry and skills never share a path. */
  lemma {:induction false} PathKindsDiffer(server: string, digest: string, skill: string)
    ensures SidecarPath(server, digest) != "registry.json"
    ensures SkillPath(skill) != "registry.json"
    ensures SidecarPath(server, digest) != SkillPath(skill)
  {
    assert SidecarPath(server, digest)[0] == 's' && SidecarPath(server, digest)[1] == 'p';
    assert SkillPath(skill)[0] == 's' && SkillPath(skill)[1] == 'k';
    assert "registry.json"[0] == 'r';
  }

  // ---------------------------------------------------------------- no file overwrites another

  predicate IsSidecar(k: Kernel, es: seq<Entry>, f: File) {
    exists i :: 0 <= i < |es| && SidecarOf(k, es[i]) == Some(f)
  }

  lemma {:induction false} IsSidecarSnoc(k: Kernel, es: seq<Entry>, e: Entry, f: File)
    ensures IsSidecar(k, es + [e], f) <==> IsSidecar(k, es, f) || SidecarOf(k, e) == Some(f)
  {
    var all := es + [e];
    if IsSidecar(k, es, f) {
      var i :| 0 <= i < |es| && SidecarOf(k, es[i]) == Some(f);
      assert all[i] == es[i];
    }
    assert all[|es|] == e;
  }

  lemma {:induction false} SidecarMember(k: Kernel, es: seq<Entry>, f: File)
    ensures f in Sidecars(k, es) <==> IsSidecar(k, es, f)
    decreases |es|
  {
    if es != [] {
      var n := |es| - 1;
      assert es == es[..n] + [es[n]];
      SidecarMember(k, es[..n], f);
      IsSidecarSnoc(k, es[..n], es[n], f);
    }
  }

  lemma {:induction false} SidecarsMembers(k: Kernel, es: seq<Entry>)
    ensures forall f :: f in Sidecars(k, es) <==> IsSidecar(k, es, f)
  {
    forall f ensures f in Sidecars(k, es) <==> IsSidecar(k, es, f) {
      SidecarMember(k, es, f);
    }
  }

  function OverrideCount(e: Entry): nat {
    if e.toolOverrides != [] then 1 else 0
  }

  /** How many entries have tool overrides. */
  function WithOverrides(es: seq<Entry>): nat {
    Sum(OverrideCount, es)
  }

  /** Distinct servers have distinct sidecar paths. */
  lemma {:induction false} SidecarsDistinct(k: Kernel, es: seq<Entry>)
    requires ValidKernel(k) && DistinctBy(EntryName, es)
    ensures DistinctBy(FilePath, Sidecars(k, es)) && |Sidecars(k, es)| == WithOverrides(es)
  {
    if es != [] {
      var n := |es| - 1;
      SidecarsDistinct(k, es[..n]);
      SidecarsMembers(k, es[..n]);
      if SidecarOf(k, es[n]).Some? {
        var f := SidecarOf(k, es[n]).value;
        forall g | g in Sidecars(k, es[..n]) ensures g.path != f.path {
          var i :| 0 <= i < n && SidecarOf(k, es[..n][i]) == Some(g);
          assert EntryName(es[i]) != EntryName(es[n]);
          if g.path == f.path {
            SidecarPathInjective(es[i].upstream.name, g.sha256, es[n].upstream.name, f.sha256);
          }
        }
      }
    }
  }

  lemma {:induction false} SkillFilesDistinct(k: Kernel, skills: seq<Skill>)
    requires DistinctBy(SkillName, skills)
    ensures DistinctBy(FilePath, SkillFiles(k, skills))
  {
    forall i, j | 0 <= i < j < |skills|
      ensures SkillFiles(k, skills)[i].path != SkillFiles(k, skills)[j].path
    {
      assert SkillName(skills[i]) != SkillName(skills[j]);
      if SkillPath(skills[i].name) == SkillPath(skills[j].name) {
        SkillPathInjective(skills[i].name, skills[j].name);
      }
    }
  }

  lemma {:induction false} NamesDistinct(k: Kernel, es: seq<Entry>)
    requires DistinctBy(UpstreamName, PreparedAll(k, es))
    ensures DistinctBy(EntryName, es)
  {
    forall i, j | 0 <= i < j < |es| ensures EntryName(es[i]) != EntryName(es[j]) {
      assert UpstreamName(PreparedAll(k, es)[i]) != UpstreamName(PreparedAll(k, es)[j]);
    }
  }

  lemma {:induction false} SidecarPathForm(k: Kernel, es: seq<Entry>, f: File)
    requires f in Sidecars(k, es)
    ensures exists server, digest :: f.path == SidecarPath(server, digest)
  {
    SidecarsMembers(k, es);
    var i :| 0 <= i < |es| && SidecarOf(k, es[i]) == Some(f);
    assert f.path == SidecarPath(es[i].upstream.name, f.sha256);
  }

  lemma {:induction false} SkillPathForm(k: Kernel, skills: seq<Skill>, f: File)
    requires f in SortBy(FilePath, SkillFiles(k, skills))
    ensures exists name :: f.path == SkillPath(name)
  {
    SortByFacts(FilePath, SkillFiles(k, skills));
    assert f in multiset(SkillFiles(k, skills));
    var j :| 0 <= j < |skills| && SkillFiles(k, skills)[j] == f;
    assert f.path == SkillPath(skills[j].name);
  }

  lemma {:induction false} KindsDiffer(k: Kernel, es: seq<Entry>, skills: seq<Skill>, f: File)
    ensures f in Sidecars(k, es) ==> f.path != "registry.json"
    ensures f in SortBy(FilePath, SkillFiles(k, skills)) ==> f.path != "registry.json"
    ensures f in Sidecars(k, es) ==>
              forall g | g in SortBy(FilePath, SkillFiles(k, skills)) :: f.path != g.path
  {
    if f in Sidecars(k, es) {
      SidecarPathForm(k, es, f);
      var server, digest :| f.path == SidecarPath(server, digest);
      PathKindsDiffer(server, digest, "");
      forall g | g in SortBy(FilePath, SkillFiles(k, skills)) ensures f.path != g.path {
        SkillPathForm(k, skills, g);
        var name :| g.path == SkillPath(name);
        PathKindsDiffer(server, digest, name);
      }
    }
    if f in SortBy(FilePath, SkillFiles(k, skills)) {
      SkillPathForm(k, skills, f);
      var name :| f.path == SkillPath(name);
      PathKindsDiffer("", "", name);
    }
  }

  lemma {:induction false} PathsDiffer(k: Kernel, entries: seq<Entry>, skills: seq<Skill>)
    requires ValidKernel(k) && DistinctBy(EntryName, SortBy(EntryName, entries)) && DistinctBy(SkillName, skills)
    ensures DistinctBy(FilePath, FileList(k, entries, skills))
    ensures |FileList(k, entries, skills)| == WithOverrides(SortBy(EntryName, entries)) + 1 + |skills|
  {
    var sorted := SortBy(EntryName, entries);
    SidecarsDistinct(k, sorted);
    SkillFilesDistinct(k, skills);
    SortByFacts(FilePath, SkillFiles(k, skills));
    DistinctIsOrderFree(FilePath, SkillFiles(k, skills), SortBy(FilePath, SkillFiles(k, skills)));
    forall f ensures f in Sidecars(k, sorted) ==> f.path != "registry.json"
             ensures f in SortBy(FilePath, SkillFiles(k, skills)) ==> f.path != "registry.json"
             ensures f in Sidecars(k, sorted) ==>
                       forall g | g in SortBy(FilePath, SkillFiles(k, skills)) :: f.path != g.path
    {
      KindsDiffer(k, sorted, skills, f);
    }
    DistinctParts(Sidecars(k, sorted), RegistryFile(k, PreparedAll(k, sorted)),
        SortBy(FilePath, SkillFiles(k, skills)));
  }

  /** All paths of a successful bundle differ, so no insert overwrites another. */
  lemma {:induction false} PathsDistinct(k: Kernel, entries: seq<Entry>, skills: seq<Skill>)
    requires ValidKernel(k) && BundleOk(k, entries, skills)
    ensures DistinctBy(FilePath, FileList(k, entries, skills))
    ensures |FileList(k, entries, skills)| == WithOverrides(SortBy(EntryName, entries)) + 1 + |skills|
  {
    NamesDistinct(k, SortBy(EntryName, entries));
    PathsDiffer(k, entries, skills);
  }

  lemma {:induction false} DistinctParts(a: seq<File>, r: File, b: seq<File>)
    requires DistinctBy(FilePath, a) && DistinctBy(FilePath, b)
    requires forall f, g | f in a && g in b :: f.path != g.path
    requires forall f | f in a :: f.path != r.path
    requires forall g | g in b :: g.path != r.path
    ensures DistinctBy(FilePath, a + [r] + b)
  {
    var all := a + [r] + b;
    forall i, j | 0 <= i < j < |all| ensures FilePath(all[i]) != FilePath(all[j]) {
      if i < |a| { assert all[i] in a; }
      if j > |a| { assert all[j] in b; }
    }
  }

  // ---------------------------------------------------------------- the map and its values

  function Paths(fs: seq<File>): seq<string> {
    MapSeq(FilePath, fs)
  }

  lemma {:induction false} FileKeys(fs: seq<File>)
    ensures forall p :: p in ToFiles(fs) <==> p in Paths(fs)
  {
    if fs != [] {
      var n := |fs| - 1;
      FileKeys(fs[..n]);
      assert Paths(fs) == Paths(fs[..n]) + [fs[n].path];
    }
  }

  /** With distinct paths the map holds exactly the listed files. */
  lemma {:induction false} FilesAreTheList(fs: seq<File>)
    requires DistinctBy(FilePath, fs)
    ensures |ToFiles(fs)| == |fs|
    ensures forall i | 0 <= i < |fs| :: fs[i].path in ToFiles(fs) && ToFiles(fs)[fs[i].path] == fs[i]
  {
    if fs != [] {
      var n := |fs| - 1;
      FilesAreTheList(fs[..n]);
      FileKeys(fs[..n]);
      var m := ToFiles(fs[..n]);
      assert fs[n].path !in m by {
        assert forall i | 0 <= i < n :: Paths(fs[..n])[i] == FilePath(fs[i]) != FilePath(fs[n]);
      }
      forall i | 0 <= i < n ensures fs[i].path in ToFiles(fs) && ToFiles(fs)[fs[i].path] == fs[i] {
        assert fs[..n][i] == fs[i];
      }
    }
  }

  lemma {:induction false} MembersSamePaths(a: seq<File>, b: seq<File>, p: string)
    requires multiset(a) == multiset(b) && p in Paths(a)
    ensures p in Paths(b)
  {
    var i :| 0 <= i < |a| && Paths(a)[i] == p;
    assert a[i] in multiset(b);
    var j :| 0 <= j < |b| && b[j] == a[i];
    assert Paths(b)[j] == p;
  }

  lemma {:induction false} SortedPaths(fs: seq<File>)
    requires DistinctBy(FilePath, fs)
    ensures StrictlySorted(Paths(SortBy(FilePath, fs)))
  {
    SortByFacts(FilePath, fs);
    var sorted := SortBy(FilePath, fs);
    DistinctIsOrderFree(FilePath, fs, sorted);
    forall i, j | 0 <= i < j < |sorted|
      ensures Paths(sorted)[i] != Paths(sorted)[j] && StrLe(Paths(sorted)[i], Paths(sorted)[j])
    {
      assert FilePath(sorted[i]) != FilePath(sorted[j]) && StrLe(FilePath(sorted[i]), FilePath(sorted[j]));
    }
  }

  lemma {:induction false} SortedKeysOfFiles(fs: seq<File>)
    requires DistinctBy(FilePath, fs)
    ensures SortedKeys(ToFiles(fs).Keys) == Paths(SortBy(FilePath, fs))
  {
    var sorted := SortBy(FilePath, fs);
    FileKeys(fs);
    SortByFacts(FilePath, fs);
    SortedPaths(fs);
    forall p ensures p in Paths(sorted) <==> p in ToFiles(fs).Keys {
      if p in Paths(sorted) { MembersSamePaths(sorted, fs, p); }
      if p in Paths(fs) { MembersSamePaths(fs, sorted, p); }
    }
    SortedKeysUnique(Paths(sorted), ToFiles(fs).Keys);
  }

  /** Iterating the map visits the files in path order. */
  lemma {:induction false} ValuesAreSorted(fs: seq<File>)
    requires DistinctBy(FilePath, fs)
    ensures Values(ToFiles(fs)) == SortBy(FilePath, fs)
  {
    FilesAreTheList(fs);
    SortedKeysOfFiles(fs);
    SortByFacts(FilePath, fs);
    var files := ToFiles(fs);
    var sorted := SortBy(FilePath, fs);
    forall i | 0 <= i < |sorted| ensures Values(files)[i] == sorted[i] {
      assert sorted[i] in multiset(fs);
      var j :| 0 <= j < |fs| && fs[j] == sorted[i];
      assert SortedKeys(files.Keys)[i] == fs[j].path;
    }
  }

  /** A successful bundle has 1 + (upstreams with overrides) + (skills) files, and its size is the sum
      of the sizes of exactly those files, within the budget. */
  lemma {:induction false} BundleIsComplete(k: Kernel, entries: seq<Entry>, skills: seq<Skill>)
    requires ValidKernel(k) && BundleOk(k, entries, skills)
    ensures var b := BundleOf(k, entries, skills);
            && |b.files| == 1 + WithOverrides(entries) + |skills|
            && b.totalBytes == TotalBytes(FileList(k, entries, skills)) <= MAX_BUNDLE_BYTES
            && (forall i | 0 <= i < |FileList(k, entries, skills)| ::
                  var f := FileList(k, entries, skills)[i]; f.path in b.files && b.files[f.path] == f)
  {
    var fs := FileList(k, entries, skills);
    PathsDistinct(k, entries, skills);
    FilesAreTheList(fs);
    ValuesAreSorted(fs);
    SortByFacts(FilePath, fs);
    SumOrderFree(FileBytes, fs, SortBy(FilePath, fs));
    SortByFacts(EntryName, entries);
    SumOrderFree(OverrideCount, entries, SortBy(EntryName, entries));
  }

  /** Every sidecar path the registry mentions is a file of the bundle, rendered from that upstream's
      own overrides. */
  lemma {:induction false} RegistryReferencesResolve(k: Kernel, entries: seq<Entry>, skills: seq<Skill>, i: nat)
    requires ValidKernel(k) && BundleOk(k, entries, skills)
    requires i < |entries|
    requires Prepared(k, SortBy(EntryName, entries)[i]).sidecar.Some?
    ensures var e := SortBy(EntryName, entries)[i];
            var path := Prepared(k, e).sidecar.value;
            && path in BundleOf(k, entries, skills).files
            && BundleOf(k, entries, skills).files[path] == SidecarFile(k, e.upstream.name, e.toolOverrides)
  {
    var sorted := SortBy(EntryName, entries);
    var fs := FileList(k, entries, skills);
    PathsDistinct(k, entries, skills);
    FilesAreTheList(fs);
    SidecarsMembers(k, sorted);
    var f := SidecarFile(k, sorted[i].upstream.name, sorted[i].toolOverrides);
    assert SidecarOf(k, sorted[i]) == Some(f);
    assert f in Sidecars(k, sorted);
    var j :| 0 <= j < |Sidecars(k, sorted)| && Sidecars(k, sorted)[j] == f;
    assert fs[j] == f;
  }

  // ---------------------------------------------------------------- order independence

  /** Both renderings fail, or both succeed with the same bundle. */
  ghost predicate SameOutcome(k: Kernel, es: seq<Entry>, ss: seq<Skill>, es': seq<Entry>, ss': seq<Skill>) {
    && (BundleOk(k, es, ss) <==> BundleOk(k, es', ss'))
    && (BundleOk(k, es, ss) ==> BundleOf(k, es, ss) == BundleOf(k, es', ss'))
  }

  lemma {:induction false} PreparedSorted(k: Kernel, es: seq<Entry>)
    ensures DistinctBy(UpstreamName, PreparedAll(k, SortBy(EntryName, es))) <==> DistinctBy(EntryName, es)
  {
    var sorted := SortBy(EntryName, es);
    SortByFacts(EntryName, es);
    if DistinctBy(EntryName, es) {
      DistinctIsOrderFree(EntryName, es, sorted);
      forall i, j | 0 <= i < j < |es|
        ensures UpstreamName(PreparedAll(k, sorted)[i]) != UpstreamName(PreparedAll(k, sorted)[j])
      {
        assert EntryName(sorted[i]) != EntryName(sorted[j]);
      }
    }
    if DistinctBy(UpstreamName, PreparedAll(k, sorted)) {
      NamesDistinct(k, sorted);
      DistinctIsOrderFree(EntryName, sorted, es);
    }
  }

  lemma {:induction false} SkillFilesOrderFree(k: Kernel, a: seq<Skill>, b: seq<Skill>)
    requires multiset(a) == multiset(b) && DistinctBy(SkillName, a)
    ensures SortBy(FilePath, SkillFiles(k, a)) == SortBy(FilePath, SkillFiles(k, b))
  {
    MapMultiset((s: Skill) => SkillFile(k, s), a, b);
    SkillFilesDistinct(k, a);
    SortByOrderFree(FilePath, SkillFiles(k, a), SkillFiles(k, b));
  }

  lemma {:induction false} SkillsOkOrderFree(a: seq<Skill>, b: seq<Skill>)
    requires multiset(a) == multiset(b)
    ensures (forall i | 0 <= i < |a| :: SkillOk(a[i])) <==> (forall i | 0 <= i < |b| :: SkillOk(b[i]))
    ensures DistinctBy(SkillName, a) <==> DistinctBy(SkillName, b)
  {
    forall i | 0 <= i < |a| ensures a[i] in b { assert a[i] in multiset(b); }
    forall i | 0 <= i < |b| ensures b[i] in a { assert b[i] in multiset(a); }
    if DistinctBy(SkillName, a) { DistinctIsOrderFree(SkillName, a, b); }
    if DistinctBy(SkillName, b) { DistinctIsOrderFree(SkillName, b, a); }
  }

  /** Success, files, size and digests do not depend on the order of upstreams or skills. */
  lemma {:induction false} BundleOrderFree(k: Kernel, es: seq<Entry>, ss: seq<Skill>, es': seq<Entry>, ss': seq<Skill>)
    requires multiset(es) == multiset(es') && multiset(ss) == multiset(ss')
    ensures SameOutcome(k, es, ss, es', ss')
  {
    SkillsOkOrderFree(ss, ss');
    SidecarsOkOrderFree(es, es');
    PreparedSorted(k, es);
    PreparedSorted(k, es');
    if DistinctBy(EntryName, es) {
      SortByOrderFree(EntryName, es, es');
    } else if DistinctBy(EntryName, es') {
      DistinctIsOrderFree(EntryName, es', es);
    }
    if DistinctBy(SkillName, ss) {
      SkillFilesOrderFree(k, ss, ss');
    }
  }

  /** Entries that differ only in the order of their tool overrides. */
  ghost predicate SameUpToOverrides(a: seq<Entry>, b: seq<Entry>) {
    |a| == |b| && forall i | 0 <= i < |a| :: SameEntry(a[i], b[i])
  }

  ghost predicate SameEntry(a: Entry, b: Entry) {
    a.upstream == b.upstream && multiset(a.toolOverrides) == multiset(b.toolOverrides)
  }

  lemma {:induction false} EntryOrderFree(k: Kernel, a: Entry, b: Entry)
    requires SameEntry(a, b)
    ensures SidecarOk(a.upstream.name, a.toolOverrides) <==> SidecarOk(b.upstream.name, b.toolOverrides)
    ensures SidecarOk(a.upstream.name, a.toolOverrides) ==> SidecarOf(k, a) == SidecarOf(k, b)
  {
    var x, y := a.toolOverrides, b.toolOverrides;
    assert |multiset(x)| == |x| && |multiset(y)| == |y|;
    forall i | 0 <= i < |x| ensures x[i] in y { assert x[i] in multiset(y); }
    forall i | 0 <= i < |y| ensures y[i] in x { assert y[i] in multiset(x); }
    if DistinctBy(OverrideName, x) {
      DistinctIsOrderFree(OverrideName, x, y);
      SortByOrderFree(OverrideName, x, y);
    } else if DistinctBy(OverrideName, y) {
      DistinctIsOrderFree(OverrideName, y, x);
    }
  }

  lemma {:induction false} InsertSame(x: Entry, y: Entry, a: seq<Entry>, b: seq<Entry>)
    requires SameEntry(x, y) && SameUpToOverrides(a, b)
    ensures SameUpToOverrides(InsertBy(EntryName, x, a), InsertBy(EntryName, y, b))
  {
    if a != [] && !StrLe(EntryName(x), EntryName(a[0])) {
      InsertSame(x, y, a[1..], b[1..]);
    }
  }

  lemma {:induction false} SortSame(a: seq<Entry>, b: seq<Entry>)
    requires SameUpToOverrides(a, b)
    ensures SameUpToOverrides(SortBy(EntryName, a), SortBy(EntryName, b))
  {
    if a != [] {
      SortSame(a[1..], b[1..]);
      InsertSame(a[0], b[0], SortBy(EntryName, a[1..]), SortBy(EntryName, b[1..]));
    }
  }

  lemma {:induction false} SidecarsSame(k: Kernel, a: seq<Entry>, b: seq<Entry>)
    requires |a| == |b| && forall i | 0 <= i < |a| :: SidecarOf(k, a[i]) == SidecarOf(k, b[i])
    ensures Sidecars(k, a) == Sidecars(k, b)
  {
    if a != [] {
      SidecarsSame(k, a[..|a| - 1], b[..|b| - 1]);
    }
  }

  lemma {:induction false} OverridesOkSame(k: Kernel, es: seq<Entry>, es': seq<Entry>)
    requires SameUpToOverrides(es, es')
    ensures (forall i | 0 <= i < |es| :: SidecarOk(es[i].upstream.name, es[i].toolOverrides))
       <==> (forall i | 0 <= i < |es'| :: SidecarOk(es'[i].upstream.name, es'[i].toolOverrides))
  {
    forall i | 0 <= i < |es|
      ensures SidecarOk(es[i].upstream.name, es[i].toolOverrides) <==>
          SidecarOk(es'[i].upstream.name, es'[i].toolOverrides)
    {
      EntryOrderFree(k, es[i], es'[i]);
    }
  }

  lemma {:induction false} SortedPartsSame(k: Kernel, es: seq<Entry>, es': seq<Entry>)
    requires SameUpToOverrides(es, es')
    requires forall i | 0 <= i < |es| :: SidecarOk(es[i].upstream.name, es[i].toolOverrides)
    ensures Sidecars(k, SortBy(EntryName, es)) == Sidecars(k, SortBy(EntryName, es'))
    ensures PreparedAll(k, SortBy(EntryName, es)) == PreparedAll(k, SortBy(EntryName, es'))
  {
    var a, b := SortBy(EntryName, es), SortBy(EntryName, es');
    SortSame(es, es');
    SortByFacts(EntryName, es);
    SidecarsOkOrderFree(es, a);
    forall i | 0 <= i < |a| ensures SidecarOf(k, a[i]) == SidecarOf(k, b[i]) && Prepared(k, a[i]) == Prepared(k, b[i]) {
      assert SidecarOk(a[i].upstream.name, a[i].toolOverrides);
      EntryOrderFree(k, a[i], b[i]);
    }
    SidecarsSame(k, a, b);
  }

  ghost predicate AllSidecarsOk(es: seq<Entry>) {
    forall i | 0 <= i < |es| :: SidecarOk(es[i].upstream.name, es[i].toolOverrides)
  }

  /** The bundle depends on the entries only through their sidecars and prepared upstreams. */
  lemma {:induction false} PartsDetermine(k: Kernel, es: seq<Entry>, es': seq<Entry>, ss: seq<Skill>)
    requires AllSidecarsOk(es) && AllSidecarsOk(es')
    requires Sidecars(k, SortBy(EntryName, es)) == Sidecars(k, SortBy(EntryName, es'))
    requires PreparedAll(k, SortBy(EntryName, es)) == PreparedAll(k, SortBy(EntryName, es'))
    ensures SameOutcome(k, es, ss, es', ss)
  {
    assert FileList(k, es, ss) == FileList(k, es', ss);
  }

  lemma {:induction false} NoneIsOk(k: Kernel, es: seq<Entry>, ss: seq<Skill>)
    requires !AllSidecarsOk(es)
    ensures !BundleOk(k, es, ss)
  {
  }

  /** Nor on the order of tool overrides inside an upstream. */
  lemma {:induction false} OverridesOrderDoesNotMatter(k: Kernel, es: seq<Entry>, es': seq<Entry>, ss: seq<Skill>)
    requires SameUpToOverrides(es, es')
    ensures SameOutcome(k, es, ss, es', ss)
  {
    OverridesOkSame(k, es, es');
    if AllSidecarsOk(es) {
      SortedPartsSame(k, es, es');
      PartsDetermine(k, es, es', ss);
    } else {
      NoneIsOk(k, es, ss);
      NoneIsOk(k, es', ss);
    }
  }

  // ---------------------------------------------------------------- digest material

  predicate NulFree(s: string) {
    NUL !in s
  }

  lemma {:induction false} SplitAtNul(a: string, x: string, b: string, y: string)
    requires NulFree(a) && NulFree(b) && a + [NUL] + x == b + [NUL] + y
    ensures a == b && x == y
  {
    var s := a + [NUL] + x;
    assert s[|a|] == NUL && s[|b|] == NUL;
    assert forall i | 0 <= i < |a| :: s[i] == a[i];
    assert forall i | 0 <= i < |b| :: s[i] == b[i];
    assert |a| == |b|;
    assert s[..|a|] == a && s[..|b|] == b;
    assert s[|a| + 1..] == x && s[|b| + 1..] == y;
  }

  lemma {:induction false} Regroup(a: string, c: string, m: string, d: string, e: string)
    ensures a + [NUL] + (c + [NUL] + m) + d + [NUL] + e + [NUL]
         == a + [NUL] + (c + [NUL] + (m + d + [NUL] + e + [NUL]))
  {
  }

  lemma {:induction false} MaterialSnoc(fs: seq<File>, f: File)
    ensures Material(fs + [f]) == Material(fs) + f.path + [NUL] + f.data + [NUL]
  {
    assert (fs + [f])[..|fs|] == fs;
  }

  /** The material read from the front. */
  lemma {:induction false} MaterialFront(fs: seq<File>)
    requires fs != []
    ensures Material(fs) == fs[0].path + [NUL] + (fs[0].data + [NUL] + Material(fs[1..]))
  {
    var n := |fs| - 1;
    var front, last := fs[..n], fs[n];
    assert fs == front + [last];
    MaterialSnoc(front, last);
    if n == 0 {
      assert front == [] && fs[1..] == [];
    } else {
      MaterialFront(front);
      assert fs[1..] == front[1..] + [last];
      MaterialSnoc(front[1..], last);
      Regroup(fs[0].path, fs[0].data, Material(front[1..]), last.path, last.data);
    }
  }

  ghost predicate NulFreeFiles(fs: seq<File>) {
    forall i | 0 <= i < |fs| :: NulFree(fs[i].path) && NulFree(fs[i].data)
  }

  lemma {:induction false} MaterialInjective(fs: seq<File>, gs: seq<File>)
    requires NulFreeFiles(fs) && NulFreeFiles(gs) && Material(fs) == Material(gs)
    ensures |fs| == |gs|
    ensures forall i | 0 <= i < |fs| :: fs[i].path == gs[i].path && fs[i].data == gs[i].data
  {
    if fs != [] { MaterialFront(fs); }
    if gs != [] { MaterialFront(gs); }
    if fs != [] && gs != [] {
      SplitAtNul(fs[0].path, fs[0].data + [NUL] + Material(fs[1..]),
                 gs[0].path, gs[0].data + [NUL] + Material(gs[1..]));
      SplitAtNul(fs[0].data, Material(fs[1..]), gs[0].data, Material(gs[1..]));
      MaterialInjective(fs[1..], gs[1..]);
      forall i | 0 <= i < |fs| ensures fs[i].path == gs[i].path && fs[i].data == gs[i].data {
        if i > 0 { assert fs[i] == fs[1..][i - 1] && gs[i] == gs[1..][i - 1]; }
      }
    }
  }

  /** Files sit under their own path and carry the digest of their data. */
  ghost predicate WellFiled(k: Kernel, files: map<string, File>) {
    forall p | p in files :: files[p].path == p && files[p].sha256 == k.sha256(files[p].data)
  }

  /** For NUL-free files, equal digest material means equal file maps. */
  lemma {:induction false} DigestMaterialDeterminesFiles(k: Kernel, a: map<string, File>, b: map<string, File>)
    requires WellFiled(k, a) && WellFiled(k, b)
    requires NulFreeFiles(Values(a)) && NulFreeFiles(Values(b))
    requires Material(Values(a)) == Material(Values(b))
    ensures a == b
  {
    MaterialInjective(Values(a), Values(b));
    SortedKeysFacts(a.Keys);
    SortedKeysFacts(b.Keys);
    SameValues(k, a, b);
    SameValues(k, b, a);
    MapsAgree(a, b);
  }

  lemma {:induction false} MapsAgree<K, V>(a: map<K, V>, b: map<K, V>)
    requires forall p | p in a :: p in b && b[p] == a[p]
    requires forall p | p in b :: p in a && a[p] == b[p]
    ensures a == b
  {
  }

  lemma {:induction false} SameValues(k: Kernel, a: map<string, File>, b: map<string, File>)
    requires WellFiled(k, a) && WellFiled(k, b)
    requires |Values(a)| == |Values(b)|
    requires forall i | 0 <= i < |Values(a)| ::
               Values(a)[i].path == Values(b)[i].path && Values(a)[i].data == Values(b)[i].data
    ensures forall p | p in a :: p in b && b[p] == a[p]
  {
    SortedKeysFacts(a.Keys);
    SortedKeysFacts(b.Keys);
    forall p | p in a ensures p in b && b[p] == a[p] {
      var ks := SortedKeys(a.Keys);
      assert p in ks;
      var i :| 0 <= i < |ks| && ks[i] == p;
      var q := SortedKeys(b.Keys)[i];
      assert Values(a)[i] == a[p] && Values(b)[i] == b[q];
    }
  }

  lemma {:induction false} ListedDigests(k: Kernel, entries: seq<Entry>, skills: seq<Skill>, f: File)
    requires f in FileList(k, entries, skills)
    ensures f.sha256 == k.sha256(f.data)
  {
    var sorted := SortBy(EntryName, entries);
    SidecarsMembers(k, sorted);
    SortByFacts(FilePath, SkillFiles(k, skills));
    if f in SortBy(FilePath, SkillFiles(k, skills)) {
      assert f in multiset(SkillFiles(k, skills));
    }
  }

  /** The files a bundle emits are well filed, so two bundles of one kernel with equal material are equal. */
  lemma {:induction false} BundlesWellFiled(k: Kernel, entries: seq<Entry>, skills: seq<Skill>)
    requires ValidKernel(k) && BundleOk(k, entries, skills)
    ensures WellFiled(k, BundleOf(k, entries, skills).files)
  {
    var fs := FileList(k, entries, skills);
    PathsDistinct(k, entries, skills);
    FilesAreTheList(fs);
    FileKeys(fs);
    forall p | p in ToFiles(fs)
      ensures ToFiles(fs)[p].path == p && ToFiles(fs)[p].sha256 == k.sha256(ToFiles(fs)[p].data)
    {
      var i :| 0 <= i < |fs| && Paths(fs)[i] == p;
      ListedDigests(k, entries, skills, fs[i]);
    }
  }
}
