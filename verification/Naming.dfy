/** GraphQL identifiers and bearer environment names of MCP servers (`naming.rs`, and the env
    names both Python renderers build). */
module Naming {
  import opened Common

  predicate IsSeparator(c: char) {
    c == '_' || c == '-' || IsSpace(c)
  }

  /** What is still to be emitted from `s` when the next letter is (or is not) capitalised. */
  function Pascal(s: string, upperNext: bool): string {
    if s == [] then []
    else if IsSeparator(s[0]) then Pascal(s[1..], true)
    else [if upperNext then ToUpperChar(s[0]) else s[0]] + Pascal(s[1..], false)
  }

  function Camel(s: string): string {
    var p := Pascal(s, true);
    if p == [] then [] else [ToLowerChar(p[0])] + p[1..]
  }

  /** `pascal_case`. */
  method PascalCase(s: string) returns (out: string)
    ensures out == Pascal(s, true)
  {
    out := [];
    var upperNext := true;
    for i := 0 to |s|
      invariant out + Pascal(s[i..], upperNext) == Pascal(s, true)
    {
      assert s[i..][1..] == s[i + 1..];
      var ch := s[i];
      if IsSeparator(ch) {
        upperNext := true;
      } else {
        out := out + [if upperNext then ToUpperChar(ch) else ch];
        upperNext := false;
      }
    }
    assert s[|s|..] == [];
  }

  /** `camel_case`. */
  method CamelCase(s: string) returns (out: string)
    ensures out == Camel(s)
  {
    var p := PascalCase(s);
    out := if p == [] then [] else [ToLowerChar(p[0])] + p[1..];
  }

  // ---------------------------------------------------------------- collisions

  datatype NameError = EmptyIdentifier | PascalCollision | CamelCollision

  /** A PascalCase identifier never starts with a small letter. */
  lemma {:induction false} PascalStart(s: string)
    ensures Pascal(s, true) == [] || !('a' <= Pascal(s, true)[0] <= 'z')
  {
    if s != [] && IsSeparator(s[0]) {
      PascalStart(s[1..]);
    }
  }

  /** Lower-casing the first letter of PascalCase identifiers loses nothing. */
  lemma {:induction false} CamelEqualPascalEqual(a: string, b: string)
    requires Camel(a) == Camel(b)
    ensures Pascal(a, true) == Pascal(b, true)
  {
    PascalStart(a);
    PascalStart(b);
    var p, q := Pascal(a, true), Pascal(b, true);
    if p != [] {
      assert Camel(a)[0] == ToLowerChar(p[0]) && Camel(b)[0] == ToLowerChar(q[0]);
      assert p[0] == q[0];
      assert p == [p[0]] + Camel(a)[1..] && q == [q[0]] + Camel(b)[1..];
    }
  }

  /** Every name yields an identifier, and no two names the same one. */
  ghost predicate NamesOk(names: seq<string>) {
    && (forall i | 0 <= i < |names| :: Pascal(names[i], true) != [])
    && (forall i, j | 0 <= i < j < |names| :: Pascal(names[i], true) != Pascal(names[j], true))
  }

  lemma {:induction false} CamelIsNew(names: seq<string>, n: nat, byPascal: map<string, string>,
                                      byCamel: map<string, string>)
    requires n < |names| && Pascal(names[n], true) !in byPascal
    requires forall i | 0 <= i < n :: Pascal(names[i], true) in byPascal
    requires forall c | c in byCamel :: exists i :: 0 <= i < n && Camel(names[i]) == c
    ensures Camel(names[n]) !in byCamel
  {
    forall i | 0 <= i < n ensures Camel(names[i]) != Camel(names[n]) {
      if Camel(names[i]) == Camel(names[n]) {
        CamelEqualPascalEqual(names[i], names[n]);
      }
    }
  }

  /** The first `n` names have identifiers, all different, and `byPascal` holds exactly those. */
  ghost predicate PascalIndexed(names: seq<string>, n: nat, byPascal: map<string, string>) {
    && n <= |names|
    && (forall i | 0 <= i < n :: Pascal(names[i], true) != [] && Pascal(names[i], true) in byPascal)
    && (forall i, j | 0 <= i < j < n :: Pascal(names[i], true) != Pascal(names[j], true))
    && (forall p | p in byPascal :: exists i :: 0 <= i < n && Pascal(names[i], true) == p)
  }

  ghost predicate CamelIndexed(names: seq<string>, n: nat, byCamel: map<string, string>) {
    n <= |names| && forall c | c in byCamel :: exists i :: 0 <= i < n && Camel(names[i]) == c
  }

  ghost predicate Indexed(names: seq<string>, n: nat, byPascal: map<string, string>, byCamel: map<string, string>) {
    PascalIndexed(names, n, byPascal) && CamelIndexed(names, n, byCamel)
  }

  lemma {:induction false} PascalStep(names: seq<string>, n: nat, byPascal: map<string, string>)
    requires PascalIndexed(names, n, byPascal) && n < |names|
    requires Pascal(names[n], true) != [] && Pascal(names[n], true) !in byPascal
    ensures PascalIndexed(names, n + 1, byPascal[Pascal(names[n], true) := names[n]])
  {
    forall p | p in byPascal ensures exists i :: 0 <= i < n + 1 && Pascal(names[i], true) == p {
      var i :| 0 <= i < n && Pascal(names[i], true) == p;
    }
  }

  lemma {:induction false} CamelStep(names: seq<string>, n: nat, byCamel: map<string, string>)
    requires CamelIndexed(names, n, byCamel) && n < |names|
    ensures CamelIndexed(names, n + 1, byCamel[Camel(names[n]) := names[n]])
  {
    forall c | c in byCamel ensures exists i :: 0 <= i < n + 1 && Camel(names[i]) == c {
      var i :| 0 <= i < n && Camel(names[i]) == c;
    }
  }

  lemma {:induction false} IndexStep(names: seq<string>, n: nat, byPascal: map<string, string>,
                                     byCamel: map<string, string>)
    requires Indexed(names, n, byPascal, byCamel) && n < |names|
    requires Pascal(names[n], true) != [] && Pascal(names[n], true) !in byPascal
    ensures Camel(names[n]) !in byCamel
    ensures Indexed(names, n + 1, byPascal[Pascal(names[n], true) := names[n]], byCamel[Camel(names[n]) := names[n]])
  {
    CamelIsNew(names, n, byPascal, byCamel);
    PascalStep(names, n, byPascal);
    CamelStep(names, n, byCamel);
  }

  ghost predicate Clash(names: seq<string>) {
    exists i, j :: 0 <= i < j < |names| && Pascal(names[i], true) == Pascal(names[j], true)
  }

  lemma {:induction false} IndexClash(names: seq<string>, n: nat, byPascal: map<string, string>,
                                      byCamel: map<string, string>)
    requires Indexed(names, n, byPascal, byCamel) && n < |names| && Pascal(names[n], true) in byPascal
    ensures Clash(names)
  {
    var i :| 0 <= i < n && Pascal(names[i], true) == Pascal(names[n], true);
  }

  /** `reject_graphql_name_collisions`. Its camelCase check can never be the one that fires. */
  method RejectGraphqlNameCollisions(names: seq<string>) returns (error: Option<NameError>)
    ensures error.None? <==> NamesOk(names)
    ensures error != Some(CamelCollision)
    ensures error == Some(EmptyIdentifier) ==> exists i :: 0 <= i < |names| && Pascal(names[i], true) == []
    ensures error == Some(PascalCollision) ==> Clash(names)
  {
    var byPascal: map<string, string> := map[];
    var byCamel: map<string, string> := map[];
    for n := 0 to |names|
      invariant Indexed(names, n, byPascal, byCamel)
    {
      var name := names[n];
      var pascal := PascalCase(name);
      var camel := CamelCase(name);
      if pascal == [] || camel == [] {
        return Some(EmptyIdentifier);
      }
      if pascal in byPascal {
        IndexClash(names, n, byPascal, byCamel);
        return Some(PascalCollision);
      }
      IndexStep(names, n, byPascal, byCamel);
      byPascal := byPascal[pascal := name];
      if camel in byCamel {
        return Some(CamelCollision);
      }
      byCamel := byCamel[camel := name];
    }
    return None;
  }

  // ---------------------------------------------------------------- bearer environment names

  function EnvChar(c: char): char {
    if ToUpperChar(c) == '-' then '_' else ToUpperChar(c)
  }

  /** `f"VMCP_BEARER_{name.upper().replace('-', '_')}"`. */
  function EnvName(name: string): (r: string) {
    "VMCP_BEARER_" + seq(|name|, i requires 0 <= i < |name| => EnvChar(name[i]))
  }

  predicate LowerCase(s: string) {
    forall i | 0 <= i < |s| :: !('A' <= s[i] <= 'Z')
  }

  lemma {:induction false} EnvNameChars(a: string, b: string)
    requires EnvName(a) == EnvName(b)
    ensures |a| == |b| && forall i | 0 <= i < |a| :: EnvChar(a[i]) == EnvChar(b[i])
  {
    var p := |"VMCP_BEARER_"|;
    assert |EnvName(a)| == p + |a| && |EnvName(b)| == p + |b|;
    forall i | 0 <= i < |a| ensures EnvChar(a[i]) == EnvChar(b[i]) {
      assert EnvName(a)[p + i] == EnvChar(a[i]) && EnvName(b)[p + i] == EnvChar(b[i]);
    }
  }

  lemma {:induction false} SameShapeSamePascal(a: string, b: string, upperNext: bool)
    requires LowerCase(a) && LowerCase(b) && |a| == |b|
    requires forall i | 0 <= i < |a| :: EnvChar(a[i]) == EnvChar(b[i])
    ensures Pascal(a, upperNext) == Pascal(b, upperNext)
  {
    if a != [] {
      assert a[0] == b[0] || (IsSeparator(a[0]) && IsSeparator(b[0]));
      SameShapeSamePascal(a[1..], b[1..], IsSeparator(a[0]));
      if !IsSeparator(a[0]) {
        SameShapeSamePascal(a[1..], b[1..], false);
      }
    }
  }

  /** Lower-case names with one env name have one PascalCase name, which the registry rejects. */
  lemma {:induction false} EnvEqualPascalEqual(a: string, b: string)
    requires LowerCase(a) && LowerCase(b) && EnvName(a) == EnvName(b)
    ensures Pascal(a, true) == Pascal(b, true)
  {
    EnvNameChars(a, b);
    SameShapeSamePascal(a, b, true);
  }

  /** Without lower case this breaks: two names the registry accepts share one variable. Kubernetes stores only
      lower-case names, so such names never come from a cluster. */
  lemma {:induction false} UpperCaseSharesEnv()
    ensures NamesOk(["ab", "aB"]) && EnvName("ab") == EnvName("aB")
  {
    assert Pascal("ab", true) == "Ab" by { assert "ab"[1..] == "b"; assert Pascal("b", false) == "b"; }
    assert Pascal("aB", true) == "AB" by { assert "aB"[1..] == "B"; assert Pascal("B", false) == "B"; }
    assert "Ab"[1] != "AB"[1];
    assert |"ab"| == 2 && |"aB"| == 2;
    assert EnvChar('b') == 'B' == EnvChar('B');
    var p := "VMCP_BEARER_";
    assert EnvName("ab") == p + "AB" && EnvName("aB") == p + "AB";
  }
}
