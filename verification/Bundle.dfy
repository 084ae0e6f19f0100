/** `render_artifact_bundle` (`bundle.rs`): one map of files, its size and its digest material. */
module Bundle {
  import opened Common
  import opened Artifacts

  function EntryName(e: Entry): string { e.upstream.name }
  function FilePath(f: File): string { f.path }

  /** The upstream handed to the registry: its sidecar reference is always recomputed. */
  function Prepared(k: Kernel, e: Entry): Upstream {
    e.upstream.(sidecar := match SidecarOf(k, e) case Some(f) => Some(f.path) case None => None)
  }

  function PreparedAll(k: Kernel, es: seq<Entry>): (r: seq<Upstream>)
    ensures |r| == |es| && forall i | 0 <= i < |es| :: r[i] == Prepared(k, es[i])
  {
    seq(|es|, i requires 0 <= i < |es| => Prepared(k, es[i]))
  }

  /** The sidecar files of the entries that have overrides, in entry order. */
  function Sidecars(k: Kernel, es: seq<Entry>): seq<File> {
    if es == [] then []
    else
      var last := SidecarOf(k, es[|es| - 1]);
      Sidecars(k, es[..|es| - 1]) + if last.Some? then [last.value] else []
  }

  function SkillFiles(k: Kernel, skills: seq<Skill>): seq<File> {
    MapSeq((s: Skill) => SkillFile(k, s), skills)
  }

  /** Every file of the bundle, in the order they are inserted. */
  function FileList(k: Kernel, entries: seq<Entry>, skills: seq<Skill>): seq<File> {
    var sorted := SortBy(EntryName, entries);
    Sidecars(k, sorted) + [RegistryFile(k, PreparedAll(k, sorted))] + SortBy(FilePath, SkillFiles(k, skills))
  }

  /** Inserting files one after the other; a later file replaces an earlier one of the same path. */
  function ToFiles(fs: seq<File>): map<string, File> {
    if fs == [] then map[]
    else ToFiles(fs[..|fs| - 1])[fs[|fs| - 1].path := fs[|fs| - 1]]
  }

  /** The values of a `BTreeMap`, in key order. */
  function Values(files: map<string, File>): (r: seq<File>)
    ensures |r| == |SortedKeys(files.Keys)|
  {
    SortedKeysFacts(files.Keys);
    var ks := SortedKeys(files.Keys);
    seq(|ks|, i requires 0 <= i < |ks| => files[ks[i]])
  }

  /** UTF-8 length of one character. */
  function CharBytes(c: char): nat {
    if c as int < 0x80 then 1 else if c as int < 0x800 then 2 else if c as int < 0x10000 then 3 else 4
  }

  function ByteLen(s: string): nat {
    if s == [] then 0 else CharBytes(s[0]) + ByteLen(s[1..])
  }

  function FileBytes(f: File): nat {
    ByteLen(f.data)
  }

  function TotalBytes(fs: seq<File>): nat {
    Sum(FileBytes, fs)
  }

  const NUL := '\0'

  /** The digest material: path and data of every file, each closed by a NUL. */
  function Material(fs: seq<File>): string {
    if fs == [] then []
    else Material(fs[..|fs| - 1]) + fs[|fs| - 1].path + [NUL] + fs[|fs| - 1].data + [NUL]
  }

  ghost predicate BundleOk(k: Kernel, entries: seq<Entry>, skills: seq<Skill>) {
    && DistinctBy(SkillName, skills)
    && (forall i | 0 <= i < |entries| :: SidecarOk(entries[i].upstream.name, entries[i].toolOverrides))
    && RegistryOk(k, PreparedAll(k, SortBy(EntryName, entries)))
    && (forall i | 0 <= i < |skills| :: SkillOk(skills[i]))
    && TotalBytes(Values(ToFiles(FileList(k, entries, skills)))) <= MAX_BUNDLE_BYTES
  }

  function BundleOf(k: Kernel, entries: seq<Entry>, skills: seq<Skill>): Artifacts.Bundle {
    var files := ToFiles(FileList(k, entries, skills));
    Artifacts.Bundle(files, RegistryFile(k, PreparedAll(k, SortBy(EntryName, entries))).sha256,
                     k.sha256(Material(Values(files))), TotalBytes(Values(files)))
  }

  lemma {:induction false} ToFilesAppend(fs: seq<File>, f: File)
    ensures ToFiles(fs + [f]) == ToFiles(fs)[f.path := f]
  {
    assert (fs + [f])[..|fs|] == fs;
  }

  lemma {:induction false} SidecarsAppend(k: Kernel, es: seq<Entry>, n: nat)
    requires n < |es|
    ensures Sidecars(k, es[..n + 1])
         == Sidecars(k, es[..n]) + if SidecarOf(k, es[n]).Some? then [SidecarOf(k, es[n]).value] else []
  {
    assert es[..n + 1][..n] == es[..n];
  }

  /** What one entry adds to the file map. */
  lemma {:induction false} SidecarStep(k: Kernel, sorted: seq<Entry>, i: nat)
    requires i < |sorted|
    ensures var e := sorted[i];
            var f := SidecarFile(k, e.upstream.name, e.toolOverrides);
            var before, after := ToFiles(Sidecars(k, sorted[..i])), ToFiles(Sidecars(k, sorted[..i + 1]));
            (after == if e.toolOverrides == [] then before
                      else before[f.path := f])
  {
    SidecarsAppend(k, sorted, i);
    if sorted[i].toolOverrides == [] {
      assert Sidecars(k, sorted[..i]) + [] == Sidecars(k, sorted[..i]);
    } else {
      ToFilesAppend(Sidecars(k, sorted[..i]), SidecarFile(k, sorted[i].upstream.name, sorted[i].toolOverrides));
    }
  }

  /** The sidecar loop: renders each entry's overrides and records the reference. */
  method CollectSidecars(k: Kernel, sorted: seq<Entry>)
    returns (ok: bool, files: map<string, File>, desired: seq<Upstream>)
    ensures ok <==> forall i | 0 <= i < |sorted| :: SidecarOk(sorted[i].upstream.name, sorted[i].toolOverrides)
    ensures ok ==> files == ToFiles(Sidecars(k, sorted)) && desired == PreparedAll(k, sorted)
  {
    files := map[];
    desired := [];
    for i := 0 to |sorted|
      invariant files == ToFiles(Sidecars(k, sorted[..i]))
      invariant desired == PreparedAll(k, sorted)[..i]
      invariant forall j | 0 <= j < i :: SidecarOk(sorted[j].upstream.name, sorted[j].toolOverrides)
    {
      var sidecar := RenderSidecar(k, sorted[i].upstream.name, sorted[i].toolOverrides);
      if sidecar.Err? {
        return false, map[], [];
      }
      SidecarStep(k, sorted, i);
      var upstream := sorted[i].upstream;
      if sidecar.value.Some? {
        var f := sidecar.value.value;
        upstream := upstream.(sidecar := Some(f.path));
        files := files[f.path := f];
      } else {
        upstream := upstream.(sidecar := None);
      }
      desired := desired + [upstream];
    }
    assert sorted[..|sorted|] == sorted;
    ok := true;
  }

  /** The skill loop, then the sort by file name. */
  method CollectSkills(k: Kernel, skills: seq<Skill>) returns (ok: bool, rendered: seq<File>)
    ensures ok <==> forall i | 0 <= i < |skills| :: SkillOk(skills[i])
    ensures ok ==> rendered == SortBy(FilePath, SkillFiles(k, skills))
  {
    rendered := [];
    for i := 0 to |skills|
      invariant rendered == SkillFiles(k, skills)[..i]
      invariant forall j | 0 <= j < i :: SkillOk(skills[j])
    {
      var r := RenderSkill(k, skills[i]);
      if r.Err? {
        return false, [];
      }
      rendered := rendered + [r.value];
    }
    assert rendered == SkillFiles(k, skills);
    rendered := SortBy(FilePath, rendered);
    ok := true;
  }

  /** Inserts rendered files one by one after those of `list`. */
  method InsertAll(before: map<string, File>, ghost list: seq<File>, rendered: seq<File>)
    returns (files: map<string, File>)
    requires before == ToFiles(list)
    ensures files == ToFiles(list + rendered)
  {
    files := before;
    assert list + rendered[..0] == list;
    for i := 0 to |rendered|
      invariant files == ToFiles(list + rendered[..i])
    {
      assert list + rendered[..i + 1] == (list + rendered[..i]) + [rendered[i]];
      ToFilesAppend(list + rendered[..i], rendered[i]);
      files := files[rendered[i].path := rendered[i]];
    }
    assert rendered[..|rendered|] == rendered;
  }

  /** Byte count and digest material over the map in key order. */
  method Measure(values: seq<File>) returns (total: nat, material: string)
    ensures total == TotalBytes(values) && material == Material(values)
  {
    total, material := 0, "";
    for i := 0 to |values|
      invariant total == TotalBytes(values[..i])
      invariant material == Material(values[..i])
    {
      assert values[..i + 1][..i] == values[..i];
      total := total + ByteLen(values[i].data);
      material := material + values[i].path + [NUL] + values[i].data + [NUL];
    }
    assert values[..|values|] == values;
  }

  /** `render_artifact_bundle`. */
  method RenderArtifactBundle(k: Kernel, entries: seq<Entry>, skills: seq<Skill>) returns (r: Outcome<Artifacts.Bundle>)
    ensures r.Ok? <==> BundleOk(k, entries, skills)
    ensures r.Ok? ==> r.value == BundleOf(k, entries, skills)
  {
    var distinct := RejectDuplicateSkillNames(skills);
    if !distinct {
      return Err(DuplicateName);
    }
    var sorted := SortBy(EntryName, entries);
    SortByFacts(EntryName, entries);
    SidecarsOkOrderFree(entries, sorted);
    var ok, files, desired := CollectSidecars(k, sorted);
    if !ok {
      return Err(BlankName);
    }
    var registry := RenderRegistry(k, desired);
    if registry.Err? {
      return Err(registry.error);
    }
    ToFilesAppend(Sidecars(k, sorted), registry.value);
    files := files[registry.value.path := registry.value];
    var skillsOk, rendered := CollectSkills(k, skills);
    if !skillsOk {
      return Err(BadSkill);
    }
    files := InsertAll(files, Sidecars(k, sorted) + [registry.value], rendered);
    var total, material := Measure(Values(files));
    if total > MAX_BUNDLE_BYTES {
      return Err(TooLarge);
    }
    return Ok(Artifacts.Bundle(files, registry.value.sha256, k.sha256(material), total));
  }

  lemma {:induction false} SidecarsOkOrderFree(a: seq<Entry>, b: seq<Entry>)
    requires multiset(a) == multiset(b)
    ensures (forall i | 0 <= i < |a| :: SidecarOk(a[i].upstream.name, a[i].toolOverrides))
       <==> (forall i | 0 <= i < |b| :: SidecarOk(b[i].upstream.name, b[i].toolOverrides))
  {
    forall i | 0 <= i < |a| ensures a[i] in b { assert a[i] in multiset(b); }
    forall i | 0 <= i < |b| ensures b[i] in a { assert b[i] in multiset(a); }
  }
}
