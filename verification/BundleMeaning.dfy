/** What a rendered bundle is, spelled out: exactly when there is one, which file lies under which path with which text,
    how large it is in UTF-8, and what its digests are taken of. */
module BundleMeaning {
  import opened Common
  import opened TextMeaning
  import Naming
  import opened Artifacts
  import opened Bundle
  import opened BundleFacts

  // ---------------------------------------------------------------- texts

  predicate Written(s: string) {
    exists i | 0 <= i < |s| :: !White(s[i])
  }

  predicate Token(s: string) {
    && |s| >= 1
    && forall i | 0 <= i < |s| ::
         s[i] == '_' || 'A' <= s[i] <= 'Z' || 'a' <= s[i] <= 'z' || '0' <= s[i] <= '9'
  }

  /** A skill name: up to 64 small letters, digits, dashes and single underscores. */
  predicate SkillWord(s: string) {
    && 1 <= |s| <= 64
    && (forall i | 0 <= i < |s| :: 'a' <= s[i] <= 'z' || '0' <= s[i] <= '9' || s[i] == '-' || s[i] == '_')
    && forall i | 1 <= i < |s| :: s[i - 1] != '_' || s[i] != '_'
  }

  lemma {:induction false} WrittenIff(s: string)
    ensures Written(s) <==> !Blank(s)
  {
    SpacesAre();
    if !Blank(s) {
      var i :| 0 <= i < |s| && !IsSpace(s[i]);
      assert !White(s[i]);
    }
  }

  lemma {:induction false} TokenIff(s: string)
    ensures Token(s) <==> IsEnvToken(s)
  {
  }

  lemma {:induction false} SkillWordIff(s: string)
    ensures SkillWord(s) <==> ValidSkillName(s)
  {
    if HasDunder(s) {
      var i :| 0 <= i < |s| - 1 && s[i] == '_' && s[i + 1] == '_';
      assert s[i + 1 - 1] == '_';
    } else {
      forall i | 1 <= i < |s| ensures s[i - 1] != '_' || s[i] != '_' {
        assert s[i - 1 + 1] == s[i];
      }
    }
  }

  /** The digests are rows of 64 small hexadecimal digits. */
  lemma {:induction false} DigestsAre(k: Kernel)
    ensures ValidKernel(k)
       <==> forall s :: |k.sha256(s)| == 64 && forall i | 0 <= i < 64 :: k.sha256(s)[i] in "0123456789abcdef"
  {
    forall c ensures IsHex(c) <==> c in "0123456789abcdef" {
      var digits := "0123456789abcdef";
      if '0' <= c <= '9' { assert digits[c as int - '0' as int] == c; }
      if 'a' <= c <= 'f' { assert digits[c as int - 'a' as int + 10] == c; }
    }
  }

  // ---------------------------------------------------------------- identifiers

  /** The words of a name, between dashes, underscores and white space; `word` is the one being read. */
  function NameWords(s: string, word: string): seq<string> {
    if s == [] then (if word == [] then [] else [word])
    else if s[0] == '-' || s[0] == '_' || White(s[0]) then (if word == [] then [] else [word]) + NameWords(s[1..], [])
    else NameWords(s[1..], word + [s[0]])
  }

  function Capital(c: char): char {
    if 'a' <= c <= 'z' then (c as int - 'a' as int + 'A' as int) as char else c
  }

  /** The words one after the other, each with a capital in front. */
  function Capitalised(words: seq<string>): string {
    if words == [] then []
    else (if words[0] == [] then [] else [Capital(words[0][0])] + words[0][1..]) + Capitalised(words[1..])
  }

  lemma {:induction false} CapitalisedFront(word: string, words: seq<string>)
    requires word != []
    ensures Capitalised([word] + words) == [Capital(word[0])] + word[1..] + Capitalised(words)
  {
    assert ([word] + words)[1..] == words;
  }

  lemma {:induction false} PascalBetween(s: string)
    ensures Naming.Pascal(s, true) == Capitalised(NameWords(s, []))
    decreases |s|, 0
  {
    if s != [] {
      SpaceIs(s[0]);
      if Naming.IsSeparator(s[0]) {
        PascalBetween(s[1..]);
        assert [] + NameWords(s[1..], []) == NameWords(s[1..], []);
      } else {
        PascalInside(s[1..], [s[0]]);
        assert [] + [s[0]] == [s[0]] && [s[0]][1..] == [];
        assert [Capital(s[0])] + [] == [Capital(s[0])];
      }
    }
  }

  lemma {:induction false} PascalInside(s: string, word: string)
    requires word != []
    ensures [Capital(word[0])] + word[1..] + Naming.Pascal(s, false) == Capitalised(NameWords(s, word))
    decreases |s|, 1
  {
    var front := [Capital(word[0])] + word[1..];
    if s == [] {
      CapitalisedFront(word, []);
      assert [word] + [] == [word] && front + [] == front;
    } else {
      SpaceIs(s[0]);
      if Naming.IsSeparator(s[0]) {
        PascalBetween(s[1..]);
        CapitalisedFront(word, NameWords(s[1..], []));
      } else {
        PascalInside(s[1..], word + [s[0]]);
        assert (word + [s[0]])[1..] == word[1..] + [s[0]];
        assert front + ([s[0]] + Naming.Pascal(s[1..], false))
            == [Capital(word[0])] + (word[1..] + [s[0]]) + Naming.Pascal(s[1..], false);
      }
    }
  }

  /** The GraphQL identifier of a name; its camelCase form only differs in the first letter. */
  lemma {:induction false} IdentifierIs(name: string)
    ensures var words := Capitalised(NameWords(name, []));
            && Naming.Pascal(name, true) == words
            && |Naming.Camel(name)| == |words|
            && (words != [] ==> Naming.Camel(name)[1..] == words[1..])
            && (words != [] ==> Naming.Camel(name)[0] as int ==
                                words[0] as int + if 'A' <= words[0] <= 'Z' then 32 else 0)
  {
    PascalBetween(name);
  }

  // ---------------------------------------------------------------- UTF-8

  /** RFC 3629, section 3. */
  function Utf8(c: char): seq<int> {
    var n := c as int;
    if n <= 0x7F then [n]
    else if n <= 0x7FF then [0xC0 + n / 0x40, 0x80 + n % 0x40]
    else if n <= 0xFFFF then [0xE0 + n / 0x1000, 0x80 + n / 0x40 % 0x40, 0x80 + n % 0x40]
    else [0xF0 + n / 0x40000, 0x80 + n / 0x1000 % 0x40, 0x80 + n / 0x40 % 0x40, 0x80 + n % 0x40]
  }

  function Encoded(s: string): seq<int> {
    if s == [] then [] else Utf8(s[0]) + Encoded(s[1..])
  }

  lemma {:induction false} ByteLenIs(s: string)
    ensures ByteLen(s) == |Encoded(s)|
  {
    if s != [] { ByteLenIs(s[1..]); }
  }

  // ---------------------------------------------------------------- files

  /** The override file of an entry: named after the server and the front of its own digest. */
  predicate OverrideFile(k: Kernel, e: Entry, f: File) {
    && e.toolOverrides != [] && f.data == k.sidecarJson(e.upstream.name, SortBy(OverrideName, e.toolOverrides))
    && f.sha256 == k.sha256(f.data) && |f.sha256| >= 12
    && f.path == "specs/" + e.upstream.name + "-" + f.sha256[..12] + ".json"
  }

  /** What the registry says about an entry; a bearer token is referred to by its variable, an override file by its
      path, whatever reference the upstream came with. */
  ghost predicate SpecReads(k: Kernel, e: Entry, spec: UpstreamSpec) {
    var u := e.upstream;
    && spec.name == u.name && spec.url == u.url && spec.description == u.description
    && spec.enabled == u.enabled && spec.forwardIdentity == u.forwardIdentity
    && (if u.bearerEnv.None? then spec.bearer == None else spec.bearer == Some("${" + u.bearerEnv.value + "}"))
    && if e.toolOverrides == [] then spec.sidecar == None
       else exists f :: OverrideFile(k, e, f) && spec.sidecar == Some(f.path)
  }

  ghost predicate SpecsRead(k: Kernel, entries: seq<Entry>, specs: seq<UpstreamSpec>) {
    var sorted := SortBy(EntryName, entries);
    |specs| == |sorted| && forall i | 0 <= i < |sorted| :: SpecReads(k, sorted[i], specs[i])
  }

  ghost predicate RegistryIs(k: Kernel, entries: seq<Entry>, f: File) {
    && f.path == "registry.json" && f.sha256 == k.sha256(f.data)
    && exists specs :: SpecsRead(k, entries, specs) && f.data == k.registryJson(specs)
  }

  predicate SkillIs(k: Kernel, s: Skill, f: File) {
    f.path == "skills/" + s.name + ".yaml" && f.data == k.skillYaml(s) && f.sha256 == k.sha256(f.data)
  }

  ghost predicate Belongs(k: Kernel, entries: seq<Entry>, skills: seq<Skill>, f: File) {
    || (exists i :: 0 <= i < |entries| && OverrideFile(k, entries[i], f))
    || RegistryIs(k, entries, f)
    || (exists i :: 0 <= i < |skills| && SkillIs(k, skills[i], f))
  }

  lemma {:induction false} OverrideFileIff(k: Kernel, e: Entry, f: File)
    requires ValidKernel(k)
    ensures SidecarOf(k, e) == Some(f) <==> OverrideFile(k, e, f)
  {
    var text := k.sidecarJson(e.upstream.name, SortBy(OverrideName, e.toolOverrides));
    assert |k.sha256(text)| == 64;
  }

  lemma {:induction false} SpecIff(k: Kernel, e: Entry, spec: UpstreamSpec)
    requires ValidKernel(k)
    ensures SpecReads(k, e, spec) <==> spec == SpecOf(Prepared(k, e))
  {
    if e.toolOverrides != [] {
      var own := SidecarOf(k, e).value;
      forall f ensures OverrideFile(k, e, f) <==> f == own {
        OverrideFileIff(k, e, f);
      }
    }
  }

  lemma {:induction false} PreparedStaysSorted(k: Kernel, entries: seq<Entry>)
    ensures var us := PreparedAll(k, SortBy(EntryName, entries)); SortBy(UpstreamName, us) == us
  {
    var sorted := SortBy(EntryName, entries);
    SortByFacts(EntryName, entries);
    var us := PreparedAll(k, sorted);
    forall i, j | 0 <= i < j < |us| ensures StrLe(UpstreamName(us[i]), UpstreamName(us[j])) {
      assert StrLe(EntryName(sorted[i]), EntryName(sorted[j]));
    }
    SortByIdentity(UpstreamName, us);
  }

  lemma {:induction false} SpecsIff(k: Kernel, entries: seq<Entry>, specs: seq<UpstreamSpec>)
    requires ValidKernel(k)
    ensures SpecsRead(k, entries, specs) <==> specs == SpecsOf(PreparedAll(k, SortBy(EntryName, entries)))
  {
    var sorted := SortBy(EntryName, entries);
    if |specs| == |sorted| {
      forall i | 0 <= i < |sorted|
        ensures SpecReads(k, sorted[i], specs[i]) <==> specs[i] == SpecOf(Prepared(k, sorted[i]))
      {
        SpecIff(k, sorted[i], specs[i]);
      }
    }
  }

  lemma {:induction false} RegistryIff(k: Kernel, entries: seq<Entry>, f: File)
    requires ValidKernel(k)
    ensures RegistryIs(k, entries, f) <==> f == RegistryFile(k, PreparedAll(k, SortBy(EntryName, entries)))
  {
    PreparedStaysSorted(k, entries);
    var own := SpecsOf(PreparedAll(k, SortBy(EntryName, entries)));
    forall specs ensures SpecsRead(k, entries, specs) <==> specs == own {
      SpecsIff(k, entries, specs);
    }
  }

  lemma {:induction false} SkillFileIff(k: Kernel, skills: seq<Skill>, f: File)
    ensures f in SortBy(FilePath, SkillFiles(k, skills))
       <==> exists i :: 0 <= i < |skills| && SkillIs(k, skills[i], f)
  {
    var fs := SkillFiles(k, skills);
    SortByFacts(FilePath, fs);
    assert f in SortBy(FilePath, fs) <==> f in multiset(fs);
    assert forall i | 0 <= i < |skills| :: fs[i] == SkillFile(k, skills[i]);
    forall i | 0 <= i < |skills| ensures SkillIs(k, skills[i], f) <==> f == fs[i] {
    }
  }

  lemma {:induction false} OverrideFilesIff(k: Kernel, entries: seq<Entry>, f: File)
    requires ValidKernel(k)
    ensures f in Sidecars(k, SortBy(EntryName, entries))
       <==> exists i :: 0 <= i < |entries| && OverrideFile(k, entries[i], f)
  {
    var sorted := SortBy(EntryName, entries);
    SidecarMember(k, sorted, f);
    SortByFacts(EntryName, entries);
    forall e ensures SidecarOf(k, e) == Some(f) <==> OverrideFile(k, e, f) { OverrideFileIff(k, e, f); }
    if i :| 0 <= i < |entries| && OverrideFile(k, entries[i], f) {
      assert entries[i] in multiset(sorted);
      var j :| 0 <= j < |sorted| && sorted[j] == entries[i];
      assert SidecarOf(k, sorted[j]) == Some(f);
    }
    if i :| 0 <= i < |sorted| && SidecarOf(k, sorted[i]) == Some(f) {
      assert sorted[i] in multiset(entries);
      var j :| 0 <= j < |entries| && entries[j] == sorted[i];
      assert OverrideFile(k, entries[j], f);
    }
  }

  /** The files of a bundle are exactly those that belong to it. */
  lemma {:induction false} FilesBelong(k: Kernel, entries: seq<Entry>, skills: seq<Skill>, f: File)
    requires ValidKernel(k)
    ensures f in FileList(k, entries, skills) <==> Belongs(k, entries, skills, f)
  {
    OverrideFilesIff(k, entries, f);
    RegistryIff(k, entries, f);
    SkillFileIff(k, skills, f);
  }

  // ---------------------------------------------------------------- the whole bundle

  predicate OverridesFine(e: Entry) {
    && (forall i | 0 <= i < |e.toolOverrides| :: Written(e.toolOverrides[i].name))
    && forall i, j | 0 <= i < j < |e.toolOverrides| :: e.toolOverrides[i].name != e.toolOverrides[j].name
  }

  predicate EntryFine(e: Entry) {
    && Written(e.upstream.name) && Written(e.upstream.url) && OverridesFine(e)
    && (e.upstream.bearerEnv.Some? ==> Token(e.upstream.bearerEnv.value))
  }

  predicate SkillFine(s: Skill) {
    && SkillWord(s.name) && Written(s.description) && Written(s.template)
    && (forall i | 0 <= i < |s.arguments| :: Written(s.arguments[i].name) && s.arguments[i].default == None)
    && forall i, j | 0 <= i < j < |s.arguments| :: s.arguments[i].name != s.arguments[j].name
  }

  function Identifier(e: Entry): string {
    Capitalised(NameWords(e.upstream.name, []))
  }

  /** Everything the renderers ask for. */
  ghost predicate Acceptable(k: Kernel, entries: seq<Entry>, skills: seq<Skill>) {
    && |entries| <= k.maxUpstreams
    && (forall i | 0 <= i < |entries| :: EntryFine(entries[i]) && Identifier(entries[i]) != "")
    && (forall i, j | 0 <= i < j < |entries| ::
          entries[i].upstream.name != entries[j].upstream.name && Identifier(entries[i]) != Identifier(entries[j]))
    && (entries != [] ==> exists specs :: SpecsRead(k, entries, specs) && k.explicitHttp(k.registryJson(specs)))
    && (forall i | 0 <= i < |skills| :: SkillFine(skills[i]))
    && forall i, j | 0 <= i < j < |skills| :: skills[i].name != skills[j].name
  }

  /** The text the bundle digest is taken of. */
  function Script(fs: seq<File>): string {
    if fs == [] then "" else fs[0].path + "\0" + fs[0].data + "\0" + Script(fs[1..])
  }

  function Octets(fs: seq<File>): nat {
    if fs == [] then 0 else |Encoded(fs[0].data)| + Octets(fs[1..])
  }

  lemma {:induction false} ScriptIs(fs: seq<File>)
    ensures Script(fs) == Material(fs)
  {
    if fs != [] {
      ScriptIs(fs[1..]);
      MaterialFront(fs);
      assert fs[0].path + "\0" + fs[0].data + "\0" + Script(fs[1..])
          == fs[0].path + "\0" + (fs[0].data + "\0" + Script(fs[1..]));
    }
  }

  lemma {:induction false} OctetsAre(fs: seq<File>)
    ensures Octets(fs) == TotalBytes(fs)
  {
    if fs != [] {
      OctetsAre(fs[1..]);
      assert fs == [fs[0]] + fs[1..];
      SumAdd(FileBytes, [fs[0]], fs[1..]);
      assert [fs[0]][..0] == [];
      ByteLenIs(fs[0].data);
    }
  }

  lemma {:induction false} SkillFineIff(s: Skill)
    ensures SkillFine(s) <==> SkillOk(s)
  {
    SkillWordIff(s.name);
    WrittenIff(s.description);
    WrittenIff(s.template);
    forall i | 0 <= i < |s.arguments| ensures Written(s.arguments[i].name) <==> !Blank(s.arguments[i].name) {
      WrittenIff(s.arguments[i].name);
    }
    if SkillFine(s) {
      forall i, j | 0 <= i < j < |s.arguments| ensures ArgName(s.arguments[i]) != ArgName(s.arguments[j]) {
      }
    }
    if SkillOk(s) {
      forall i, j | 0 <= i < j < |s.arguments| ensures s.arguments[i].name != s.arguments[j].name {
        assert ArgName(s.arguments[i]) != ArgName(s.arguments[j]);
      }
    }
  }

  lemma {:induction false} OverridesFineIff(e: Entry)
    requires Written(e.upstream.name)
    ensures OverridesFine(e) <==> SidecarOk(e.upstream.name, e.toolOverrides)
  {
    var ovs := e.toolOverrides;
    WrittenIff(e.upstream.name);
    forall i | 0 <= i < |ovs| ensures Written(ovs[i].name) <==> !Blank(ovs[i].name) {
      WrittenIff(ovs[i].name);
    }
    if OverridesFine(e) {
      forall i, j | 0 <= i < j < |ovs| ensures OverrideName(ovs[i]) != OverrideName(ovs[j]) {
      }
    }
    if SidecarOk(e.upstream.name, ovs) {
      forall i, j | 0 <= i < j < |ovs| ensures ovs[i].name != ovs[j].name {
        assert OverrideName(ovs[i]) != OverrideName(ovs[j]);
      }
    }
  }

  lemma {:induction false} EntryFineIff(k: Kernel, e: Entry)
    ensures EntryFine(e) <==> SpecOk(Prepared(k, e)) && SidecarOk(e.upstream.name, e.toolOverrides)
  {
    WrittenIff(e.upstream.name);
    WrittenIff(e.upstream.url);
    if e.upstream.bearerEnv.Some? { TokenIff(e.upstream.bearerEnv.value); }
    if Written(e.upstream.name) { OverridesFineIff(e); }
  }

  lemma {:induction false} AllOrAll(a: seq<Entry>, b: seq<Entry>, p: Entry -> bool)
    requires multiset(a) == multiset(b)
    ensures (forall i | 0 <= i < |a| :: p(a[i])) <==> (forall i | 0 <= i < |b| :: p(b[i]))
  {
    forall i | 0 <= i < |a| ensures a[i] in b { assert a[i] in multiset(b); }
    forall i | 0 <= i < |b| ensures b[i] in a { assert b[i] in multiset(a); }
  }

  lemma {:induction false} DistinctOrDistinct(key: Entry -> string, entries: seq<Entry>)
    ensures DistinctBy(key, entries) <==> DistinctBy(key, SortBy(EntryName, entries))
  {
    var sorted := SortBy(EntryName, entries);
    SortByFacts(EntryName, entries);
    if DistinctBy(key, entries) { DistinctIsOrderFree(key, entries, sorted); }
    if DistinctBy(key, sorted) { DistinctIsOrderFree(key, sorted, entries); }
  }

  predicate WellNamed(e: Entry) {
    EntryFine(e) && Identifier(e) != ""
  }

  lemma {:induction false} NamesFineIff(k: Kernel, es: seq<Entry>)
    ensures var us := PreparedAll(k, es);
            && (DistinctBy(UpstreamName, us) <==> DistinctBy(EntryName, es))
            && (Naming.NamesOk(NamesOf(us)) <==>
                (forall i | 0 <= i < |es| :: Identifier(es[i]) != "") && DistinctBy(Identifier, es))
  {
    var us := PreparedAll(k, es);
    var names := NamesOf(us);
    forall i | 0 <= i < |es| ensures UpstreamName(us[i]) == EntryName(es[i])
                             ensures Naming.Pascal(names[i], true) == Identifier(es[i])
    {
      IdentifierIs(es[i].upstream.name);
    }
    if DistinctBy(Identifier, es) {
      forall i, j | 0 <= i < j < |es| ensures Naming.Pascal(names[i], true) != Naming.Pascal(names[j], true) {
        assert Identifier(es[i]) != Identifier(es[j]);
      }
    }
    if Naming.NamesOk(names) {
      forall i, j | 0 <= i < j < |es| ensures Identifier(es[i]) != Identifier(es[j]) {
        assert Naming.Pascal(names[i], true) != Naming.Pascal(names[j], true);
      }
    }
    if DistinctBy(UpstreamName, us) {
      forall i, j | 0 <= i < j < |es| ensures EntryName(es[i]) != EntryName(es[j]) {
        assert UpstreamName(us[i]) != UpstreamName(us[j]);
      }
    }
    if DistinctBy(EntryName, es) {
      forall i, j | 0 <= i < j < |es| ensures UpstreamName(us[i]) != UpstreamName(us[j]) {
        assert EntryName(es[i]) != EntryName(es[j]);
      }
    }
  }

  /** The entries the registry and the sidecars accept. */
  ghost predicate EntriesFine(k: Kernel, entries: seq<Entry>) {
    && |entries| <= k.maxUpstreams
    && (forall i | 0 <= i < |entries| :: WellNamed(entries[i]))
    && DistinctBy(EntryName, entries) && DistinctBy(Identifier, entries)
    && (entries != [] ==> k.explicitHttp(k.registryJson(SpecsOf(PreparedAll(k, SortBy(EntryName, entries))))))
  }

  lemma {:induction false} PartsFine(k: Kernel, es: seq<Entry>)
    ensures (forall i | 0 <= i < |es| :: EntryFine(es[i]))
       <==> (forall i | 0 <= i < |es| :: SpecOk(PreparedAll(k, es)[i]))
            && (forall i | 0 <= i < |es| :: SidecarOk(es[i].upstream.name, es[i].toolOverrides))
  {
    forall i | 0 <= i < |es|
      ensures EntryFine(es[i]) <==>
              SpecOk(PreparedAll(k, es)[i]) && SidecarOk(es[i].upstream.name, es[i].toolOverrides)
    {
      EntryFineIff(k, es[i]);
    }
  }

  lemma {:induction false} EntriesFineIff(k: Kernel, entries: seq<Entry>)
    ensures EntriesFine(k, entries)
       <==> (forall i | 0 <= i < |entries| :: SidecarOk(entries[i].upstream.name, entries[i].toolOverrides))
            && RegistryOk(k, PreparedAll(k, SortBy(EntryName, entries)))
  {
    var sorted := SortBy(EntryName, entries);
    PreparedStaysSorted(k, entries);
    SortByFacts(EntryName, entries);
    NamesFineIff(k, sorted);
    DistinctOrDistinct(EntryName, entries);
    DistinctOrDistinct(Identifier, entries);
    AllOrAll(entries, sorted, WellNamed);
    SidecarsOkOrderFree(entries, sorted);
    PartsFine(k, sorted);
    assert (forall i | 0 <= i < |sorted| :: WellNamed(sorted[i]))
        <==> (forall i | 0 <= i < |sorted| :: EntryFine(sorted[i]))
             && forall i | 0 <= i < |sorted| :: Identifier(sorted[i]) != "";
  }

  lemma {:induction false} AcceptableIff(k: Kernel, entries: seq<Entry>, skills: seq<Skill>)
    requires ValidKernel(k)
    ensures Acceptable(k, entries, skills)
       <==> && EntriesFine(k, entries) && DistinctBy(SkillName, skills)
            && forall i | 0 <= i < |skills| :: SkillOk(skills[i])
  {
    forall i | 0 <= i < |skills| ensures SkillFine(skills[i]) <==> SkillOk(skills[i]) { SkillFineIff(skills[i]); }
    var own := SpecsOf(PreparedAll(k, SortBy(EntryName, entries)));
    forall specs ensures SpecsRead(k, entries, specs) <==> specs == own { SpecsIff(k, entries, specs); }
    assert DistinctBy(SkillName, skills) <==> forall i, j | 0 <= i < j < |skills| :: skills[i].name != skills[j].name;
    assert DistinctBy(EntryName, entries)
        <==> forall i, j | 0 <= i < j < |entries| :: entries[i].upstream.name != entries[j].upstream.name;
  }

  /** `files` holds the files of the bundle, each under its path, and no others. */
  ghost predicate Filed(k: Kernel, entries: seq<Entry>, skills: seq<Skill>, files: map<string, File>) {
    && (forall p | p in files :: files[p].path == p && Belongs(k, entries, skills, files[p]))
    && forall f | Belongs(k, entries, skills, f) :: f.path in files && files[f.path] == f
  }

  /** The renderer's result: for acceptable input the files filed by path, at most a mebibyte of them in UTF-8, with the
      digest of the registry's text and the digest of all paths and texts in path order. */
  ghost predicate Renders(k: Kernel, entries: seq<Entry>, skills: seq<Skill>, b: Artifacts.Bundle) {
    && Acceptable(k, entries, skills) && Filed(k, entries, skills, b.files)
    && b.totalBytes == Octets(Values(b.files)) <= 1048576
    && "registry.json" in b.files && b.registrySha256 == b.files["registry.json"].sha256
    && b.bundleSha256 == k.sha256(Script(Values(b.files)))
  }

  lemma {:induction false} FiledIff(k: Kernel, entries: seq<Entry>, skills: seq<Skill>, files: map<string, File>)
    requires ValidKernel(k) && EntriesFine(k, entries) && DistinctBy(SkillName, skills)
    ensures Filed(k, entries, skills, files) <==> files == ToFiles(FileList(k, entries, skills))
  {
    var fs := FileList(k, entries, skills);
    DistinctOrDistinct(EntryName, entries);
    PathsDiffer(k, entries, skills);
    FilesAreTheList(fs);
    FileKeys(fs);
    forall f ensures f in fs <==> Belongs(k, entries, skills, f) { FilesBelong(k, entries, skills, f); }
    FiledFromList(fs);
    if Filed(k, entries, skills, files) {
      forall p ensures p in files <==> p in ToFiles(fs) {
        if p in files { assert files[p] in fs; }
        if p in ToFiles(fs) { assert ToFiles(fs)[p] in fs; }
      }
      forall p | p in files ensures files[p] == ToFiles(fs)[p] {
        assert files[p] in fs;
      }
    }
  }

  lemma {:induction false} FiledFromList(fs: seq<File>)
    requires DistinctBy(FilePath, fs)
    ensures forall f | f in fs :: f.path in ToFiles(fs) && ToFiles(fs)[f.path] == f
    ensures forall p | p in ToFiles(fs) :: ToFiles(fs)[p] in fs && ToFiles(fs)[p].path == p
  {
    FilesAreTheList(fs);
    FileKeys(fs);
    forall p | p in ToFiles(fs) ensures ToFiles(fs)[p] in fs && ToFiles(fs)[p].path == p {
      var i :| 0 <= i < |Paths(fs)| && Paths(fs)[i] == p;
      assert fs[i].path == p;
    }
  }

  lemma {:induction false} BundleParts(k: Kernel, entries: seq<Entry>, skills: seq<Skill>)
    requires ValidKernel(k)
    ensures BundleOk(k, entries, skills)
       <==> && Acceptable(k, entries, skills)
            && TotalBytes(Values(ToFiles(FileList(k, entries, skills)))) <= 1048576
  {
    AcceptableIff(k, entries, skills);
    EntriesFineIff(k, entries);
    assert MAX_BUNDLE_BYTES == 1048576;
  }

  lemma {:induction false} RegistryFiled(k: Kernel, entries: seq<Entry>, skills: seq<Skill>)
    requires ValidKernel(k) && EntriesFine(k, entries) && DistinctBy(SkillName, skills)
    ensures var files := ToFiles(FileList(k, entries, skills));
            && "registry.json" in files
            && files["registry.json"] == RegistryFile(k, PreparedAll(k, SortBy(EntryName, entries)))
  {
    var fs := FileList(k, entries, skills);
    DistinctOrDistinct(EntryName, entries);
    PathsDiffer(k, entries, skills);
    FiledFromList(fs);
    var f := RegistryFile(k, PreparedAll(k, SortBy(EntryName, entries)));
    assert f in fs && f.path == "registry.json";
  }

  /** A bundle is rendered exactly when the input is acceptable and fits, and then it is the described one. */
  lemma {:induction false} RendersIff(k: Kernel, entries: seq<Entry>, skills: seq<Skill>, b: Artifacts.Bundle)
    requires ValidKernel(k)
    ensures BundleOk(k, entries, skills) && b == BundleOf(k, entries, skills) <==> Renders(k, entries, skills, b)
  {
    BundleParts(k, entries, skills);
    AcceptableIff(k, entries, skills);
    if Acceptable(k, entries, skills) {
      var files := ToFiles(FileList(k, entries, skills));
      FiledIff(k, entries, skills, b.files);
      RegistryFiled(k, entries, skills);
      OctetsAre(Values(files));
      ScriptIs(Values(files));
    }
  }
}
