/** What the text helpers of `Common` do, spelled out. */
module TextMeaning {
  import opened Common

  /** ASCII white space: blank, tab, line feed, carriage return, vertical tab, form feed. */
  predicate White(c: char) {
    c as int in {32, 9, 10, 13, 11, 12}
  }

  /** `r` is the part of `s` from `i` on, with only white space before and behind. */
  predicate TrimsAt(s: string, r: string, i: nat) {
    && i + |r| <= |s| && r == s[i..i + |r|]
    && (forall j | 0 <= j < i :: White(s[j])) && forall j | i + |r| <= j < |s| :: White(s[j])
  }

  /** `r` is `s` without the white space at both ends. */
  ghost predicate Trims(s: string, r: string) {
    (r != [] ==> !White(r[0]) && !White(r[|r| - 1])) && exists i: nat :: TrimsAt(s, r, i)
  }

  lemma {:induction false} SpaceIs(c: char)
    ensures IsSpace(c) <==> White(c)
  {
    assert ' ' as int == 32 && '\t' as int == 9 && '\n' as int == 10 && '\r' as int == 13;
  }

  lemma {:induction false} SpacesAre()
    ensures forall c :: IsSpace(c) <==> White(c)
  {
    forall c ensures IsSpace(c) <==> White(c) { SpaceIs(c); }
  }

  lemma {:induction false} PartOfTail(s: string, i: nat, n: nat)
    requires i + n <= |s|
    ensures s[i..][..n] == s[i..i + n]
    ensures forall j | i + n <= j < |s| :: s[i..][j - i] == s[j]
  {
  }

  lemma {:induction false} StartIs(s: string, t: string)
    requires t == TrimStart(s)
    ensures |t| <= |s| && t == s[|s| - |t|..] && (t != [] ==> !White(t[0]))
    ensures forall j | 0 <= j < |s| - |t| :: White(s[j])
  {
    SpacesAre();
  }

  lemma {:induction false} EndIs(t: string, r: string)
    requires r == TrimEnd(t)
    ensures |r| <= |t| && r == t[..|r|] && (r != [] ==> !White(r[|r| - 1]))
    ensures forall j | |r| <= j < |t| :: White(t[j])
  {
    SpacesAre();
  }

  lemma {:induction false} BothEnds(s: string, t: string, r: string)
    requires |r| <= |t| <= |s| && t == s[|s| - |t|..] && r == t[..|r|]
    requires (t != [] ==> !White(t[0])) && (r != [] ==> !White(r[|r| - 1]))
    requires forall j | 0 <= j < |s| - |t| :: White(s[j])
    requires forall j | |r| <= j < |t| :: White(t[j])
    ensures Trims(s, r)
  {
    var i := |s| - |t|;
    PartOfTail(s, i, |r|);
    forall j | i + |r| <= j < |s| ensures White(s[j]) { assert t[j - i] == s[j]; }
    assert TrimsAt(s, r, i);
  }

  lemma {:induction false} StripTrims(s: string)
    ensures Trims(s, Strip(s))
  {
    var t := TrimStart(s);
    StartIs(s, t);
    EndIs(t, TrimEnd(t));
    BothEnds(s, t, TrimEnd(t));
  }

  lemma {:induction false} TrimsTo(s: string, r: string, q: string)
    requires Trims(s, r) && Trims(s, q) && r != []
    ensures q == r
  {
    var i: nat :| TrimsAt(s, r, i);
    var k: nat :| TrimsAt(s, q, k);
    assert s[i] == r[0] && s[i + |r| - 1] == r[|r| - 1];
    assert q != [];
    assert s[k] == q[0] && s[k + |q| - 1] == q[|q| - 1];
    assert i == k && i + |r| == k + |q|;
  }

  /** `str.strip()` finds the one trimmed form. */
  lemma {:induction false} StripIff(s: string, r: string)
    ensures Strip(s) == r <==> Trims(s, r)
  {
    StripTrims(s);
    if Trims(s, r) {
      if r != [] { TrimsTo(s, r, Strip(s)); } else if Strip(s) != [] { TrimsTo(s, Strip(s), r); }
    }
  }

  // ---------------------------------------------------------------- order

  /** `a` comes before `b`: it is the front of it, or has the smaller code point where they first differ. */
  predicate Before(a: string, b: string, i: nat) {
    && i <= |a| && i <= |b| && a[..i] == b[..i]
    && (i == |a| || (i < |b| && a[i] as int < b[i] as int))
  }

  /** The order that `sorted` and `Ord for str` use. */
  lemma {:induction false} OrderIs(a: string, b: string)
    ensures StrLe(a, b) <==> exists i: nat :: Before(a, b, i)
  {
    if a == [] {
      assert Before(a, b, 0);
    } else if b != [] {
      OrderIs(a[1..], b[1..]);
      if a[0] == b[0] {
        SameHead(a, b);
      } else {
        forall i: nat ensures Before(a, b, i) && i > 0 ==> a[0] == b[0] {
          if i > 0 && Before(a, b, i) { HeadsAgree(a, b, i); }
        }
        if a[0] < b[0] { assert Before(a, b, 0); }
      }
    }
  }

  lemma {:induction false} HeadsAgree(a: string, b: string, i: nat)
    requires 0 < i <= |a| && i <= |b| && a[..i] == b[..i]
    ensures a[0] == b[0]
  {
    assert a[..i][0] == a[0] && b[..i][0] == b[0];
  }

  lemma {:induction false} SameHead(a: string, b: string)
    requires a != [] && b != [] && a[0] == b[0]
    ensures (exists i: nat :: Before(a, b, i)) <==> exists i: nat :: Before(a[1..], b[1..], i)
  {
    if i: nat :| Before(a, b, i) {
      assert i > 0;
      assert a[1..][..i - 1] == a[..i][1..] && b[1..][..i - 1] == b[..i][1..];
      assert Before(a[1..], b[1..], i - 1);
    }
    if i: nat :| Before(a[1..], b[1..], i) {
      assert a[..i + 1] == [a[0]] + a[1..][..i] && b[..i + 1] == [b[0]] + b[1..][..i];
      assert Before(a, b, i + 1);
    }
  }
}
