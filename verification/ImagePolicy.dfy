/** OCI image references and the prefix allowlist (`image_policy.rs`). */
module ImagePolicy {
  import opened Common
  import opened Search

  datatype ImageRef = ImageRef(repository: string, tag: Option<string>, digest: Option<string>)
  datatype Fault = Empty | HasSpace | EmptyDigest | EmptyTag | NoPath | NoPrefixes | Outside

  type Outcome<T> = Result<T, Fault>

  /** Index of the last `c`, or |s|. */
  function Last(s: string, c: char): (i: nat)
    ensures i <= |s|
    ensures i < |s| ==> s[i] == c && forall j | i < j < |s| :: s[j] != c
    ensures i == |s| ==> c !in s
  {
    if s == [] then 0
    else if s[|s| - 1] == c then |s| - 1
    else
      var i := Last(s[..|s| - 1], c);
      if i == |s| - 1 then |s| else i
  }

  /** The part after the last slash. */
  function LastSegment(s: string): string {
    var i := Last(s, '/');
    if i == |s| then s else s[i + 1..]
  }

  /** Splits off a tag: the text after the last colon, unless that colon belongs to a registry port or
      the segment before it contains a dot. */
  function SplitTag(s: string): Outcome<(string, Option<string>)> {
    var i := Last(s, ':');
    if i == |s| || '.' in LastSegment(s[..i]) then Ok((s, None))
    else if i == |s| - 1 then Err(EmptyTag)
    else if '/' in s[i + 1..] then Ok((s, None))
    else Ok((s[..i], Some(s[i + 1..])))
  }

  predicate HasSpaces(s: string) {
    exists i :: 0 <= i < |s| && IsSpace(s[i])
  }

  function DigestPart(s: string): Option<string> {
    var at := IndexOf(s, '@');
    if at == |s| then None else Some(s[at + 1..])
  }

  function NameAndTag(s: string): string { s[..IndexOf(s, '@')] }

  /** The reference after `trim`. */
  function ParseTrimmed(s: string): Outcome<ImageRef> {
    if s == [] then Err(Empty)
    else if HasSpaces(s) then Err(HasSpace)
    else if DigestPart(s) == Some("") then Err(EmptyDigest)
    else
      match SplitTag(NameAndTag(s))
      case Err(e) => Err(e)
      case Ok((repository, tag)) =>
        if repository == [] || '/' !in repository then Err(NoPath)
        else Ok(ImageRef(repository, tag, DigestPart(s)))
  }

  /** `parse_image_ref`. */
  function ParseImageRef(image: string): Outcome<ImageRef> { ParseTrimmed(Strip(image)) }

  function Assemble(r: ImageRef): string {
    r.repository
    + (if r.tag.Some? then ":" + r.tag.value else "")
    + (if r.digest.Some? then "@" + r.digest.value else "")
  }

  function TrimSlashes(s: string): (r: string)
    ensures |r| <= |s| && r == s[..|r|] && (r != [] ==> r[|r| - 1] != '/')
    ensures forall i | |r| <= i < |s| :: s[i] == '/'
  {
    if s != [] && s[|s| - 1] == '/' then TrimSlashes(s[..|s| - 1]) else s
  }

  /** Equal to the prefix, or below it as a path. */
  predicate Under(repository: string, prefix: string) {
    prefix != [] && (repository == prefix || StartsWith(repository, prefix + "/"))
  }

  ghost predicate Admits(prefixes: seq<string>, repository: string) {
    exists i :: 0 <= i < |prefixes| && Under(repository, TrimSlashes(prefixes[i]))
  }

  /** The loop over prefixes returns at the first match. */
  method AdmitsRepository(repository: string, prefixes: seq<string>) returns (r: bool)
    ensures r <==> Admits(prefixes, repository)
  {
    for i := 0 to |prefixes|
      invariant forall j | 0 <= j < i :: !Under(repository, TrimSlashes(prefixes[j]))
    {
      var prefix := TrimSlashes(prefixes[i]);
      if prefix == [] {
        continue;
      }
      if repository == prefix || StartsWith(repository, prefix + "/") {
        return true;
      }
    }
    return false;
  }

  /** `image_allowed`: an empty allowlist is refused before the reference is looked at. */
  method ImageAllowed(image: string, prefixes: seq<string>) returns (r: Outcome<()>)
    ensures prefixes == [] ==> r == Err(NoPrefixes)
    ensures prefixes != [] && ParseImageRef(image).Err? ==> r == Err(ParseImageRef(image).error)
    ensures prefixes != [] && ParseImageRef(image).Ok? ==>
              r == if Admits(prefixes, ParseImageRef(image).value.repository) then Ok(()) else Err(Outside)
  {
    if prefixes == [] {
      return Err(NoPrefixes);
    }
    var parsed := ParseImageRef(image);
    if parsed.Err? {
      return Err(parsed.error);
    }
    var allowed := AdmitsRepository(parsed.value.repository, prefixes);
    return if allowed then Ok(()) else Err(Outside);
  }

  // ---------------------------------------------------------------- facts

  lemma {:induction false} SplitTagRejoins(s: string)
    requires SplitTag(s).Ok?
    ensures var (repository, tag) := SplitTag(s).value;
            (s == repository + if tag.Some? then ":" + tag.value else "")
  {
    var i := Last(s, ':');
    if i < |s| {
      assert s == s[..i] + ":" + s[i + 1..];
    }
  }

  lemma {:induction false} DigestRejoins(s: string)
    ensures s == NameAndTag(s) + if DigestPart(s).Some? then "@" + DigestPart(s).value else ""
  {
    var at := IndexOf(s, '@');
    if at < |s| {
      assert s == s[..at] + "@" + s[at + 1..];
    }
  }

  /** The parts of a reference put back together are the trimmed input. */
  lemma {:induction false} AssembleUndoesParse(image: string)
    requires ParseImageRef(image).Ok?
    ensures Assemble(ParseImageRef(image).value) == Strip(image)
  {
    AssembleTrimmed(Strip(image));
  }

  lemma {:induction false} AssembleTrimmed(s: string)
    requires ParseTrimmed(s).Ok?
    ensures Assemble(ParseTrimmed(s).value) == s
  {
    DigestRejoins(s);
    SplitTagRejoins(NameAndTag(s));
  }

  /** What may follow an allowed prefix: the end, a path, a tag or a digest. */
  predicate AtBoundary(s: string, prefix: string) {
    StartsWith(s, prefix)
    && (|s| == |prefix| || s[|prefix|] == '/' || s[|prefix|] == ':' || s[|prefix|] == '@')
  }

  /** An image allowed through a prefix is that prefix followed by nothing, a slash, a colon or an at sign:
      `harbor/ai` does not admit `harbor/ai-evil/x`. */
  lemma {:induction false} AllowedAtBoundary(image: string, prefix: string)
    requires ParseImageRef(image).Ok? && Under(ParseImageRef(image).value.repository, TrimSlashes(prefix))
    ensures AtBoundary(Strip(image), TrimSlashes(prefix))
  {
    AssembleUndoesParse(image);
    BoundaryOf(ParseImageRef(image).value, TrimSlashes(prefix));
  }

  lemma {:induction false} BoundaryOf(r: ImageRef, p: string)
    requires Under(r.repository, p)
    ensures AtBoundary(Assemble(r), p)
  {
    var s := Assemble(r);
    assert s[..|r.repository|] == r.repository;
    assert s[..|p|] == r.repository[..|p|] == p by {
      if r.repository != p { assert r.repository[..|p| + 1][..|p|] == (p + "/")[..|p|]; }
    }
    if r.repository != p {
      assert r.repository[..|p| + 1][|p|] == (p + "/")[|p|];
      assert s[|p|] == r.repository[|p|];
    }
  }

  /** Nested prefixes: whatever a longer prefix admits, the shorter one admits too. */
  lemma {:induction false} PrefixesNest(repository: string, a: string, b: string)
    requires Under(repository, b) && Under(b, a)
    ensures Under(repository, a)
  {
    if repository != b && b != a {
      assert (b + "/")[..|a| + 1] == b[..|a| + 1] == a + "/";
      assert repository[..|a| + 1] == repository[..|b| + 1][..|a| + 1];
    }
  }

  lemma {:induction false} NoDigest(s: string)
    requires '@' !in s
    ensures NameAndTag(s) == s && DigestPart(s) == None
  {
    assert s[..|s|] == s;
  }

  /** Exactly when a reference without a digest has a tag: a last colon with text behind it, no slash
      behind it, and no dot in the path segment before it. */
  lemma {:induction false} TagIff(image: string)
    requires ParseImageRef(image).Ok? && '@' !in Strip(image)
    ensures var s := Strip(image);
            var i := Last(s, ':');
            (ParseImageRef(image).value.tag.Some?
             <==> i < |s| - 1 && '/' !in s[i + 1..] && '.' !in LastSegment(s[..i]))
  {
    NoDigest(Strip(image));
  }

  lemma {:induction false} LastIs(s: string, c: char, i: nat)
    requires i < |s| && s[i] == c && c !in s[i + 1..]
    ensures Last(s, c) == i
  {
    assert forall j | i < j < |s| :: s[j] == s[i + 1..][j - i - 1];
  }

  lemma {:induction false} TaggedSplit(repository: string, tag: string)
    requires tag != "" && ':' !in tag && '/' !in tag && '.' !in LastSegment(repository)
    ensures SplitTag(repository + ":" + tag) == Ok((repository, Some(tag)))
  {
    var s := repository + ":" + tag;
    assert s[|repository| + 1..] == tag && s[..|repository|] == repository;
    LastIs(s, ':', |repository|);
  }

  lemma {:induction false} DigestSplit(name: string, digest: Option<string>)
    requires '@' !in name
    ensures var s := name + if digest.Some? then "@" + digest.value else "";
            NameAndTag(s) == name && DigestPart(s) == digest
  {
    var s := name + if digest.Some? then "@" + digest.value else "";
    assert forall i | 0 <= i < |name| :: s[i] == name[i] && name[i] in name;
    if digest.Some? {
      assert s == name + "@" + digest.value && s[|name|] == '@';
    } else {
      assert s == name;
    }
    assert s[..|name|] == name;
    if digest.Some? { assert s[|name| + 1..] == digest.value; }
  }

  /** The other way round: a tagged reference, with or without a digest, is parsed into the parts it was put
      together from, when its last path segment has no dot. */
  lemma {:induction false} ParseUndoesAssemble(r: ImageRef)
    requires r.tag.Some? && r.tag.value != "" && ':' !in r.tag.value && '/' !in r.tag.value && r.digest != Some("")
    requires '/' in r.repository && '.' !in LastSegment(r.repository) && '@' !in r.repository && '@' !in r.tag.value
    requires Strip(Assemble(r)) == Assemble(r) && !HasSpaces(Assemble(r))
    ensures ParseImageRef(Assemble(r)) == Ok(r)
  {
    var name := r.repository + ":" + r.tag.value;
    DigestSplit(name, r.digest);
    assert Assemble(r) == name + if r.digest.Some? then "@" + r.digest.value else "";
    TaggedSplit(r.repository, r.tag.value);
  }

  lemma {:induction false} DottedSplit(registry: string, name: string, tag: string)
    requires '.' in name && '/' !in name && ':' !in tag
    ensures SplitTag(registry + "/" + name + ":" + tag) == Ok((registry + "/" + name + ":" + tag, None))
  {
    var left := registry + "/" + name;
    var s := left + ":" + tag;
    assert s[|left| + 1..] == tag && s[..|left|] == left;
    LastIs(s, ':', |left|);
    assert left[|registry| + 1..] == name;
    LastIs(left, '/', |registry|);
  }

  /** So a dotted image name keeps its tag inside the repository, against the documented reading. */
  lemma {:induction false} DottedNameKeepsTag(registry: string, name: string, tag: string)
    requires '.' in name && '/' !in name && ':' !in tag
    requires var s := registry + "/" + name + ":" + tag; Strip(s) == s && !HasSpaces(s) && '@' !in s
    ensures ParseImageRef(registry + "/" + name + ":" + tag) ==
        Ok(ImageRef(registry + "/" + name + ":" + tag, None, None))
  {
    var s := registry + "/" + name + ":" + tag;
    NoDigest(s);
    DottedSplit(registry, name, tag);
    assert s[|registry|] == '/';
  }

  /** `r/a.b:1` parses with no tag: the whole text is its repository. */
  lemma {:induction false} DottedExample()
    ensures var s := "r" + "/" + "a.b" + ":" + "1"; ParseImageRef(s) == Ok(ImageRef(s, None, None))
  {
    var s := "r" + "/" + "a.b" + ":" + "1";
    assert |s| == 7 && s[0] == 'r' && s[1] == '/' && s[2] == 'a' && s[3] == '.' && s[4] == 'b' && s[5] == ':' &&
        s[6] == '1';
    NotPadded(s);
    assert "a.b"[1] == '.';
    DottedNameKeepsTag("r", "a.b", "1");
  }

  lemma {:induction false} NotPadded(s: string)
    requires s != [] && forall i | 0 <= i < |s| :: !IsSpace(s[i])
    ensures Strip(s) == s && !HasSpaces(s)
  {
    StripIdentity(s);
  }
}
