/** Shared vocabulary: optional values, results, the lexicographic order on strings
    that Python's `sorted` and Rust's `Ord for str` agree on, and a stable sort by key. */
module Common {

  datatype Option<+T> = None | Some(value: T)

  datatype Result<+T, +E> = Ok(value: T) | Err(error: E)

  /** A namespaced gateway name (`GatewayKey`). */
  datatype GatewayKey = GatewayKey(namespace: string, name: string)

  /** A reference to a parent Gateway (`GatewayParentRef`). */
  datatype ParentRef = ParentRef(name: string, namespace: Option<string>, sectionName: Option<string>)

  // ---------------------------------------------------------------- string order

  /** Code-point lexicographic order. */
  predicate StrLe(a: string, b: string) {
    a == [] || (b != [] && (a[0] < b[0] || (a[0] == b[0] && StrLe(a[1..], b[1..]))))
  }

  lemma {:induction false} StrLeTotal(a: string, b: string)
    ensures StrLe(a, b) || StrLe(b, a)
  {
    if a != [] && b != [] && a[0] == b[0] {
      StrLeTotal(a[1..], b[1..]);
    }
  }

  lemma {:induction false} StrLeAntisymmetric(a: string, b: string)
    requires StrLe(a, b) && StrLe(b, a)
    ensures a == b
  {
    if a != [] && b != [] {
      StrLeAntisymmetric(a[1..], b[1..]);
      assert a == [a[0]] + a[1..];
      assert b == [b[0]] + b[1..];
    }
  }

  lemma {:induction false} StrLeTransitive(a: string, b: string, c: string)
    requires StrLe(a, b) && StrLe(b, c)
    ensures StrLe(a, c)
  {
    if a != [] && a[0] == b[0] == c[0] {
      StrLeTransitive(a[1..], b[1..], c[1..]);
    }
  }

  lemma {:induction false} StrLeReflexive(a: string)
    ensures StrLe(a, a)
  {
    StrLeTotal(a, a);
  }

  // ---------------------------------------------------------------- stable sort

  /** Inserts before the first element whose key is not smaller, so equal keys keep their order. */
  function InsertBy<T>(key: T -> string, x: T, s: seq<T>): (r: seq<T>)
    ensures |r| == |s| + 1
  {
    if s == [] || StrLe(key(x), key(s[0])) then [x] + s
    else [s[0]] + InsertBy(key, x, s[1..])
  }

  /** The stable sort both languages provide (`sorted(key=...)`, `sort_by`). */
  function SortBy<T>(key: T -> string, s: seq<T>): (r: seq<T>)
    ensures |r| == |s|
  {
    if s == [] then [] else InsertBy(key, s[0], SortBy(key, s[1..]))
  }

  ghost predicate SortedBy<T>(key: T -> string, s: seq<T>) {
    forall i, j | 0 <= i < j < |s| :: StrLe(key(s[i]), key(s[j]))
  }

  ghost predicate DistinctBy<T>(key: T -> string, s: seq<T>) {
    forall i, j | 0 <= i < j < |s| :: key(s[i]) != key(s[j])
  }

  lemma {:induction false} InsertByFacts<T>(key: T -> string, x: T, s: seq<T>)
    requires SortedBy(key, s)
    ensures SortedBy(key, InsertBy(key, x, s))
    ensures multiset(InsertBy(key, x, s)) == multiset{x} + multiset(s)
  {
    if s == [] || StrLe(key(x), key(s[0])) {
      var r := [x] + s;
      forall i, j | 0 <= i < j < |r| ensures StrLe(key(r[i]), key(r[j])) {
        if i == 0 && j > 1 {
          StrLeTransitive(key(x), key(s[0]), key(s[j - 1]));
        }
      }
    } else {
      StrLeTotal(key(x), key(s[0]));
      InsertByFacts(key, x, s[1..]);
      var t := InsertBy(key, x, s[1..]);
      var r := [s[0]] + t;
      assert s == [s[0]] + s[1..];
      forall j | 0 <= j < |t| ensures StrLe(key(s[0]), key(t[j])) {
        assert t[j] in multiset(t);
        assert t[j] == x || t[j] in s[1..];
      }
    }
  }

  lemma {:induction false} SortByFacts<T>(key: T -> string, s: seq<T>)
    ensures SortedBy(key, SortBy(key, s))
    ensures multiset(SortBy(key, s)) == multiset(s)
  {
    if s != [] {
      SortByFacts(key, s[1..]);
      InsertByFacts(key, s[0], SortBy(key, s[1..]));
      assert s == [s[0]] + s[1..];
    }
  }

  /** Sorting something already sorted is the identity. */
  lemma {:induction false} SortByIdentity<T>(key: T -> string, s: seq<T>)
    requires SortedBy(key, s)
    ensures SortBy(key, s) == s
  {
    if s != [] {
      SortByIdentity(key, s[1..]);
      assert s == [s[0]] + s[1..];
    }
  }

  lemma {:induction false} SortedHeadsAgree<T>(key: T -> string, a: seq<T>, b: seq<T>)
    requires SortedBy(key, a) && SortedBy(key, b)
    requires multiset(a) == multiset(b) && a != [] && b != []
    requires DistinctBy(key, a)
    ensures a[0] == b[0]
  {
    assert a[0] in multiset(b) && b[0] in multiset(a);
    var i :| 0 <= i < |b| && b[i] == a[0];
    var j :| 0 <= j < |a| && a[j] == b[0];
    StrLeReflexive(key(a[0]));
    StrLeReflexive(key(b[0]));
    assert StrLe(key(a[0]), key(b[0])) && StrLe(key(b[0]), key(a[0]));
    StrLeAntisymmetric(key(a[0]), key(b[0]));
  }

  /** Distinct keys and equal elements: there is only one sorted arrangement. */
  lemma {:induction false} SortedUnique<T>(key: T -> string, a: seq<T>, b: seq<T>)
    requires SortedBy(key, a) && SortedBy(key, b)
    requires multiset(a) == multiset(b)
    requires DistinctBy(key, a)
    ensures a == b
  {
    assert |multiset(a)| == |a| && |multiset(b)| == |b|;
    if a != [] {
      SortedHeadsAgree(key, a, b);
      assert a == [a[0]] + a[1..];
      assert b == [b[0]] + b[1..];
      assert multiset(a[1..]) == multiset(a) - multiset{a[0]};
      assert multiset(b[1..]) == multiset(b) - multiset{b[0]};
      SortedUnique(key, a[1..], b[1..]);
    }
  }

  /** Key-distinctness only depends on which elements occur, not on their order. */
  lemma {:induction false} DistinctIsOrderFree<T>(key: T -> string, a: seq<T>, b: seq<T>)
    requires multiset(a) == multiset(b)
    requires DistinctBy(key, a)
    ensures DistinctBy(key, b)
  {
    forall i, j | 0 <= i < j < |b| ensures key(b[i]) != key(b[j]) {
      assert b[i] in multiset(b) && b[j] in multiset(b);
      assert b == b[..j] + b[j..];
      assert b[..j][i] == b[i] && b[j..][0] == b[j];
      assert multiset(b) == multiset(b[..j]) + multiset(b[j..]);
      DistinctCountsOnce(key, a, b[i]);
      var p :| 0 <= p < |a| && a[p] == b[i];
      var q :| 0 <= q < |a| && a[q] == b[j];
    }
  }

  lemma {:induction false} DistinctCountsOnce<T>(key: T -> string, a: seq<T>, x: T)
    requires DistinctBy(key, a)
    ensures multiset(a)[x] <= 1
  {
    if a != [] {
      DistinctCountsOnce(key, a[1..], x);
      assert a == [a[0]] + a[1..];
      assert a[0] !in a[1..];
    }
  }

  /** Sorting by distinct keys forgets the input order. */
  lemma {:induction false} SortByOrderFree<T>(key: T -> string, a: seq<T>, b: seq<T>)
    requires multiset(a) == multiset(b)
    requires DistinctBy(key, a)
    ensures SortBy(key, a) == SortBy(key, b)
  {
    SortByFacts(key, a);
    SortByFacts(key, b);
    DistinctIsOrderFree(key, a, SortBy(key, a));
    SortedUnique(key, SortBy(key, a), SortBy(key, b));
  }

  // ---------------------------------------------------------------- order-free folds

  function MapSeq<T, U>(f: T -> U, xs: seq<T>): (r: seq<U>)
    ensures |r| == |xs|
    ensures forall i | 0 <= i < |xs| :: r[i] == f(xs[i])
  {
    seq(|xs|, i requires 0 <= i < |xs| => f(xs[i]))
  }

  function Sum<T>(f: T -> nat, s: seq<T>): nat {
    if s == [] then 0 else Sum(f, s[..|s| - 1]) + f(s[|s| - 1])
  }

  lemma {:induction false} SumAdd<T>(f: T -> nat, a: seq<T>, b: seq<T>)
    ensures Sum(f, a + b) == Sum(f, a) + Sum(f, b)
  {
    if b == [] {
      assert a + b == a;
    } else {
      assert (a + b)[..|a + b| - 1] == a + b[..|b| - 1];
      SumAdd(f, a, b[..|b| - 1]);
    }
  }

  lemma {:induction false} TakeOut<T>(s: seq<T>, x: T) returns (l: seq<T>, r: seq<T>)
    requires x in s
    ensures s == l + [x] + r
    ensures multiset(s) == multiset(l + r) + multiset{x}
  {
    var i :| 0 <= i < |s| && s[i] == x;
    l, r := s[..i], s[i + 1..];
    assert s == l + [x] + r;
  }

  lemma {:induction false} SameRest<T>(a: multiset<T>, b: multiset<T>, x: T)
    requires a + multiset{x} == b + multiset{x}
    ensures a == b
  {
    assert a == a + multiset{x} - multiset{x};
    assert b == b + multiset{x} - multiset{x};
  }

  lemma {:induction false} SumOrderFree<T>(f: T -> nat, a: seq<T>, b: seq<T>)
    requires multiset(a) == multiset(b)
    ensures Sum(f, a) == Sum(f, b)
  {
    assert |multiset(a)| == |a| && |multiset(b)| == |b|;
    if a != [] {
      var n := |a| - 1;
      assert a == a[..n] + [a[n]];
      assert a[n] in multiset(b);
      var l, r := TakeOut(b, a[n]);
      SameRest(multiset(a[..n]), multiset(l + r), a[n]);
      SumOrderFree(f, a[..n], l + r);
      SumAdd(f, l + [a[n]], r);
      SumAdd(f, l, [a[n]]);
      SumAdd(f, l, r);
      assert [a[n]][..0] == [];
      assert Sum(f, [a[n]]) == f(a[n]);
    }
  }

  lemma {:induction false} MapSeqSplit<T, U>(f: T -> U, a: seq<T>, b: seq<T>)
    ensures MapSeq(f, a + b) == MapSeq(f, a) + MapSeq(f, b)
    ensures multiset(MapSeq(f, a + b)) == multiset(MapSeq(f, a)) + multiset(MapSeq(f, b))
  {
    assert MapSeq(f, a + b) == MapSeq(f, a) + MapSeq(f, b);
  }

  lemma {:induction false} MapMultiset<T, U>(f: T -> U, a: seq<T>, b: seq<T>)
    requires multiset(a) == multiset(b)
    ensures multiset(MapSeq(f, a)) == multiset(MapSeq(f, b))
  {
    assert |multiset(a)| == |a| && |multiset(b)| == |b|;
    if a != [] {
      assert a == [a[0]] + a[1..];
      assert a[0] in multiset(b);
      var l, r := TakeOut(b, a[0]);
      SameRest(multiset(a[1..]), multiset(l + r), a[0]);
      MapMultiset(f, a[1..], l + r);
      MapSeqSplit(f, [a[0]], a[1..]);
      MapSeqSplit(f, l, r);
      MapSeqSplit(f, l + [a[0]], r);
      MapSeqSplit(f, l, [a[0]]);
    }
  }

  // ---------------------------------------------------------------- keys of a map, in order

  predicate IsLeast(k: string, ks: set<string>) {
    k in ks && forall j | j in ks :: StrLe(k, j)
  }

  lemma {:induction false} LeastExists(ks: set<string>)
    requires ks != {}
    ensures exists k :: IsLeast(k, ks)
  {
    var x :| x in ks;
    if ks == {x} {
      StrLeReflexive(x);
      assert IsLeast(x, ks);
    } else {
      LeastExists(ks - {x});
      var y :| IsLeast(y, ks - {x});
      StrLeTotal(x, y);
      StrLeReflexive(x);
      forall j | j in ks && StrLe(x, y) ensures StrLe(x, j) {
        if j != x { StrLeTransitive(x, y, j); }
      }
      assert IsLeast(if StrLe(x, y) then x else y, ks);
    }
  }

  function Least(ks: set<string>): (k: string)
    requires ks != {}
    ensures IsLeast(k, ks)
  {
    LeastExists(ks);
    assert forall a, b | a in ks && IsLeast(a, ks) && b in ks && IsLeast(b, ks) :: a == b by {
      forall a, b | IsLeast(a, ks) && IsLeast(b, ks) ensures a == b { StrLeAntisymmetric(a, b); }
    }
    var k :| k in ks && IsLeast(k, ks);
    k
  }

  /** Iteration order of a `BTreeMap`, and of `sorted(d.items())`. */
  function SortedKeys(ks: set<string>): (r: seq<string>) {
    if ks == {} then [] else var k := Least(ks); [k] + SortedKeys(ks - {k})
  }

  ghost predicate StrictlySorted(s: seq<string>) {
    forall i, j | 0 <= i < j < |s| :: s[i] != s[j] && StrLe(s[i], s[j])
  }

  lemma {:induction false} SortedKeysFacts(ks: set<string>)
    ensures StrictlySorted(SortedKeys(ks))
    ensures |SortedKeys(ks)| == |ks|
    ensures forall k :: k in SortedKeys(ks) <==> k in ks
  {
    if ks != {} {
      var k := Least(ks);
      SortedKeysFacts(ks - {k});
      var t := SortedKeys(ks - {k});
      assert forall i | 0 <= i < |t| :: t[i] in ks - {k};
    }
  }

  /** A strictly sorted enumeration of a set is unique. */
  lemma {:induction false} SortedKeysUnique(s: seq<string>, ks: set<string>)
    requires StrictlySorted(s)
    requires forall k :: k in s <==> k in ks
    ensures s == SortedKeys(ks)
  {
    if s == [] {
      assert ks == {};
    } else {
      assert s[0] in ks;
      var k := Least(ks);
      var i :| 0 <= i < |s| && s[i] == k;
      StrLeReflexive(k);
      assert StrLe(s[0], k) && StrLe(k, s[0]);
      StrLeAntisymmetric(s[0], k);
      assert s == [s[0]] + s[1..];
      assert s[0] !in s[1..];
      SortedKeysUnique(s[1..], ks - {k});
    }
  }

  // ---------------------------------------------------------------- characters

  function ToLowerChar(c: char): (r: char) {
    if 'A' <= c <= 'Z' then (c as int + 32) as char else c
  }

  function ToUpperChar(c: char): (r: char) {
    if 'a' <= c <= 'z' then (c as int - 32) as char else c
  }

  /** ASCII `str.lower()`. */
  function Lower(s: string): (r: string)
    ensures |r| == |s|
    ensures forall i | 0 <= i < |s| :: r[i] == ToLowerChar(s[i])
  {
    seq(|s|, i requires 0 <= i < |s| => ToLowerChar(s[i]))
  }

  predicate IsSpace(c: char) {
    c == ' ' || c == '\t' || c == '\n' || c == '\r' || c as int == 11 || c as int == 12
  }

  function TrimStart(s: string): (r: string)
    ensures r == [] || !IsSpace(r[0])
    ensures |r| <= |s| && r == s[|s| - |r|..]
    ensures forall i | 0 <= i < |s| - |r| :: IsSpace(s[i])
  {
    if s != [] && IsSpace(s[0]) then TrimStart(s[1..]) else s
  }

  function TrimEnd(s: string): (r: string)
    ensures r == [] || !IsSpace(r[|r| - 1])
    ensures |r| <= |s| && r == s[..|r|]
    ensures forall i | |r| <= i < |s| :: IsSpace(s[i])
  {
    if s != [] && IsSpace(s[|s| - 1]) then TrimEnd(s[..|s| - 1]) else s
  }

  /** `str.strip()` / `str::trim()` on ASCII white space. */
  function Strip(s: string): (r: string) {
    TrimEnd(TrimStart(s))
  }

  /** `not s.strip()` / `s.trim().is_empty()`. */
  predicate Blank(s: string) {
    forall i | 0 <= i < |s| :: IsSpace(s[i])
  }

  lemma {:induction false} StripBlank(s: string)
    ensures Strip(s) == [] <==> Blank(s)
  {
    var t := TrimStart(s);
    assert t == s[|s| - |t|..];
    assert Blank(s) ==> t == [];
    assert forall i | |s| - |t| <= i < |s| :: s[i] == t[i - (|s| - |t|)];
  }

  /** A string with no white space at its ends is its own strip. */
  lemma {:induction false} StripIdentity(s: string)
    requires s == [] || (!IsSpace(s[0]) && !IsSpace(s[|s| - 1]))
    ensures Strip(s) == s
  {
  }

  predicate StartsWith(s: string, p: string) {
    |p| <= |s| && s[..|p|] == p
  }
}
