/** Which image references are understood, into which parts, and which images an allowlist lets through, spelled out. */
module ImageMeaning {
  import opened Common
  import opened TextMeaning
  import opened Search
  import opened ImagePolicy

  predicate Lacks(s: string, c: char) {
    forall i | 0 <= i < |s| :: s[i] != c
  }

  predicate Tight(s: string) {
    s != [] && forall i | 0 <= i < |s| :: !White(s[i])
  }

  /** A dot in the part after the last slash. */
  predicate DotAtEnd(s: string) {
    exists i | 0 <= i < |s| :: s[i] == '.' && forall j | i < j < |s| :: s[j] != '/'
  }

  /** The last colon is no tag separator: the part before it ends in a dotted segment, or a slash follows. */
  predicate Untagged(name: string) {
    forall i | 0 <= i < |name| && name[i] == ':' && Lacks(name[i + 1..], ':') ::
      DotAtEnd(name[..i]) || !Lacks(name[i + 1..], '/')
  }

  /** What is before the digest: a repository with a path, and a tag behind its last colon or none. */
  predicate ReadsName(name: string, repository: string, tag: Option<string>) {
    && !Lacks(repository, '/')
    && match tag
       case None => name == repository && Untagged(name)
       case Some(t) =>
         && name == repository + ":" + t && t != "" && Lacks(t, ':') && Lacks(t, '/')
         && !DotAtEnd(repository)
  }

  /** The digest is what follows the first at sign. */
  predicate ReadsImage(s: string, name: string, digest: Option<string>) {
    && Tight(s) && Lacks(name, '@')
    && match digest
       case None => s == name
       case Some(d) => s == name + "@" + d && d != ""
  }

  ghost predicate Understood(image: string, r: ImageRef) {
    exists s, name :: Trims(image, s) && ReadsImage(s, name, r.digest) && ReadsName(name, r.repository, r.tag)
  }

  /** The prefix without its closing slashes, or something below it; nothing but slashes admits nothing. */
  predicate Covers(prefix: string, repository: string) {
    exists n | 0 < n <= |prefix| ::
      && prefix[n - 1] != '/' && (forall i | n <= i < |prefix| :: prefix[i] == '/')
      && n <= |repository| && repository[..n] == prefix[..n] && (|repository| > n ==> repository[n] == '/')
  }

  lemma {:induction false} DottedIff(s: string)
    ensures '.' in LastSegment(s) <==> DotAtEnd(s)
  {
    var k := Last(s, '/');
    var seg := LastSegment(s);
    var from := if k == |s| then 0 else k + 1;
    assert seg == s[from..];
    if '.' in seg {
      var i :| 0 <= i < |seg| && seg[i] == '.';
      assert s[from + i] == '.';
    }
    if DotAtEnd(s) {
      var i :| 0 <= i < |s| && s[i] == '.' && forall j | i < j < |s| :: s[j] != '/';
      assert i >= from && seg[i - from] == '.';
    }
  }

  lemma {:induction false} LastColon(s: string, i: nat)
    requires i < |s|
    ensures Last(s, ':') == i <==> s[i] == ':' && Lacks(s[i + 1..], ':')
  {
    if s[i] == ':' && Lacks(s[i + 1..], ':') { LastIs(s, ':', i); }
  }

  lemma {:induction false} UntaggedIff(name: string)
    ensures SplitTag(name) == Ok((name, None)) <==> Untagged(name)
  {
    var k := Last(name, ':');
    if k < |name| {
      LastColon(name, k);
      DottedIff(name[..k]);
      assert '/' in name[k + 1..] <==> !Lacks(name[k + 1..], '/');
      assert |name[..k]| < |name|;
      forall i | 0 <= i < |name| && name[i] == ':' && Lacks(name[i + 1..], ':') ensures i == k { LastColon(name, i); }
    }
  }

  lemma {:induction false} TaggedIff(name: string, repository: string, tag: string)
    ensures SplitTag(name) == Ok((repository, Some(tag)))
       <==> name == repository + ":" + tag && tag != "" && Lacks(tag, ':') && Lacks(tag, '/') && !DotAtEnd(repository)
  {
    DottedIff(repository);
    if name == repository + ":" + tag && tag != "" && Lacks(tag, ':') && Lacks(tag, '/') && !DotAtEnd(repository) {
      TaggedSplit(repository, tag);
    }
    if SplitTag(name) == Ok((repository, Some(tag))) {
      SplitTagRejoins(name);
      LastColon(name, Last(name, ':'));
    }
  }

  lemma {:induction false} NameIff(name: string, repository: string, tag: Option<string>)
    ensures ReadsName(name, repository, tag) <==> SplitTag(name) == Ok((repository, tag)) && '/' in repository
  {
    match tag
    case None => UntaggedIff(name); SplitTagShape(name);
    case Some(t) => TaggedIff(name, repository, t);
  }

  lemma {:induction false} SplitTagShape(name: string)
    ensures SplitTag(name).Ok? && SplitTag(name).value.1 == None ==> SplitTag(name).value.0 == name
  {
  }

  lemma {:induction false} TightIff(s: string)
    ensures Tight(s) <==> s != [] && !HasSpaces(s)
  {
    SpacesAre();
  }

  /** A text splits at its first at sign in one way. */
  lemma {:induction false} DigestParts(s: string, name: string, digest: Option<string>)
    ensures Lacks(name, '@') && s == name + (if digest.Some? then "@" + digest.value else "")
       <==> name == NameAndTag(s) && digest == DigestPart(s)
  {
    if Lacks(name, '@') { DigestSplit(name, digest); }
    DigestRejoins(s);
    assert Lacks(NameAndTag(s), '@');
  }

  lemma {:induction false} DigestIff(s: string, name: string, digest: Option<string>)
    ensures ReadsImage(s, name, digest)
       <==> s != [] && !HasSpaces(s) && name == NameAndTag(s) && digest == DigestPart(s) && digest != Some("")
  {
    TightIff(s);
    DigestParts(s, name, digest);
    match digest
    case None => assert name + "" == name;
    case Some(d) => assert name + "@" + d == name + ("@" + d);
  }

  /** Parsing finds the parts a reference is read into, and fails for a reference that is read into none. */
  lemma {:induction false} ParseIff(image: string, r: ImageRef)
    ensures ParseImageRef(image) == Ok(r) <==> Understood(image, r)
  {
    var s := Strip(image);
    StripIff(image, s);
    var name := NameAndTag(s);
    DigestIff(s, name, r.digest);
    NameIff(name, r.repository, r.tag);
    if Understood(image, r) {
      var t, n :| Trims(image, t) && ReadsImage(t, n, r.digest) && ReadsName(n, r.repository, r.tag);
      StripIff(image, t);
      DigestIff(s, n, r.digest);
    }
    if ParseImageRef(image) == Ok(r) {
      assert Trims(image, s) && ReadsImage(s, name, r.digest) && ReadsName(name, r.repository, r.tag);
    }
  }

  lemma {:induction false} CoversIff(prefix: string, repository: string)
    ensures Under(repository, TrimSlashes(prefix)) <==> Covers(prefix, repository)
  {
    var p := TrimSlashes(prefix);
    var n := |p|;
    if Under(repository, p) {
      assert prefix[..n] == p;
      if repository != p {
        assert repository[..n] == repository[..n + 1][..n] == (p + "/")[..n];
        assert repository[n] == repository[..n + 1][n] == (p + "/")[n];
      }
    }
    if Covers(prefix, repository) {
      var m :| 0 < m <= |prefix|
               && prefix[m - 1] != '/' && (forall i | m <= i < |prefix| :: prefix[i] == '/')
               && m <= |repository| && repository[..m] == prefix[..m] && (|repository| > m ==> repository[m] == '/');
      assert m == n;
      if |repository| > n {
        assert repository[..n + 1] == repository[..n] + [repository[n]];
      } else {
        assert repository == repository[..n];
      }
    }
  }

  /** An image is let through exactly when it is understood and some prefix of the list covers its repository. */
  lemma {:induction false} AllowedIff(image: string, prefixes: seq<string>)
    ensures prefixes != [] && ParseImageRef(image).Ok? && Admits(prefixes, ParseImageRef(image).value.repository)
       <==> exists r, i :: Understood(image, r) && 0 <= i < |prefixes| && Covers(prefixes[i], r.repository)
  {
    if ParseImageRef(image).Ok? {
      var r := ParseImageRef(image).value;
      ParseIff(image, r);
      forall i | 0 <= i < |prefixes|
        ensures Under(r.repository, TrimSlashes(prefixes[i])) <==> Covers(prefixes[i], r.repository)
      {
        CoversIff(prefixes[i], r.repository);
      }
    }
    if r, i :| Understood(image, r) && 0 <= i < |prefixes| && Covers(prefixes[i], r.repository) {
      ParseIff(image, r);
    }
  }

  lemma {:induction false} EmptyDigestIff(s: string)
    requires s != ""
    ensures DigestPart(s) == Some("") <==> s[|s| - 1] == '@' && Lacks(s[..|s| - 1], '@')
  {
    var at := IndexOf(s, '@');
    if at < |s| {
      assert DigestPart(s) == Some(s[at + 1..]);
      assert |s[at + 1..]| == |s| - 1 - at;
    }
  }

  lemma {:induction false} EmptyTagIff(s: string)
    requires s != ""
    ensures SplitTag(s) == Err(EmptyTag) <==> s[|s| - 1] == ':' && !DotAtEnd(s[..|s| - 1])
    ensures SplitTag(s).Err? ==> SplitTag(s) == Err(EmptyTag)
  {
    DottedIff(s[..|s| - 1]);
    if s[|s| - 1] == ':' { LastIs(s, ':', |s| - 1); }
  }

  lemma {:induction false} ErrorsInOrder(s: string)
    ensures ParseTrimmed(s) == Err(Empty) <==> s == []
    ensures ParseTrimmed(s) == Err(HasSpace) <==> s != [] && HasSpaces(s)
    ensures ParseTrimmed(s) == Err(EmptyDigest) <==> s != [] && !HasSpaces(s) && DigestPart(s) == Some("")
    ensures ParseTrimmed(s) == Err(EmptyTag)
       <==> s != [] && !HasSpaces(s) && DigestPart(s) != Some("") && SplitTag(NameAndTag(s)) == Err(EmptyTag)
  {
    if NameAndTag(s) != [] { EmptyTagIff(NameAndTag(s)); }
  }

  /** Which error a reference is refused with, in the order the checks are made. */
  lemma {:induction false} RefusedWith(image: string, s: string)
    requires Trims(image, s)
    ensures ParseImageRef(image) == Err(Empty) <==> s == ""
    ensures ParseImageRef(image) == Err(HasSpace) <==> s != "" && !Tight(s)
    ensures ParseImageRef(image) == Err(EmptyDigest)
       <==> Tight(s) && s[|s| - 1] == '@' && Lacks(s[..|s| - 1], '@')
    ensures Tight(s) && Lacks(s, '@') ==>
              (ParseImageRef(image) == Err(EmptyTag) <==> s[|s| - 1] == ':' && !DotAtEnd(s[..|s| - 1]))
  {
    StripIff(image, s);
    TightIff(s);
    ErrorsInOrder(s);
    if s != "" {
      EmptyDigestIff(s);
      EmptyTagIff(s);
      if Lacks(s, '@') { NoDigest(s); }
    }
  }
}
