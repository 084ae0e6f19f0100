/** Text as the command parser sees it: words between white space, joined back by single spaces,
    and compared without regard to case. */
module NlText {
  import opened Common

  // ---------------------------------------------------------------- letters

  function FoldChar(c: char): (r: char)
    ensures IsSpace(r) <==> IsSpace(c)
  {
    if 'А' <= c <= 'Я' then (c as int + 32) as char
    else if c == 'Ё' then 'ё'
    else ToLowerChar(c)
  }

  /** `str.lower()` on ASCII and Russian letters. */
  function Fold(s: string): (r: string)
    ensures |r| == |s| && forall i | 0 <= i < |s| :: r[i] == FoldChar(s[i])
  {
    seq(|s|, i requires 0 <= i < |s| => FoldChar(s[i]))
  }

  /** `\w` on ASCII and Russian letters. */
  predicate IsWordChar(c: char) {
    'a' <= c <= 'z' || 'A' <= c <= 'Z' || '0' <= c <= '9' || c == '_'
    || 'А' <= c <= 'я' || c == 'ё' || c == 'Ё'
  }

  // ---------------------------------------------------------------- words

  /** A non-empty run of characters without white space. */
  predicate IsToken(w: string) {
    w != [] && forall i | 0 <= i < |w| :: !IsSpace(w[i])
  }

  predicate AreTokens(ws: seq<string>) {
    forall i | 0 <= i < |ws| :: IsToken(ws[i])
  }

  function WordLength(s: string): (n: nat)
    ensures n <= |s| && (n < |s| ==> IsSpace(s[n])) && forall i | 0 <= i < n :: !IsSpace(s[i])
  {
    if s == [] || IsSpace(s[0]) then 0 else 1 + WordLength(s[1..])
  }

  /** `s.split()`. */
  function Words(s: string): (ws: seq<string>)
    ensures AreTokens(ws)
    decreases |s|
  {
    if s == [] then []
    else if IsSpace(s[0]) then Words(s[1..])
    else
      var n := WordLength(s);
      [s[..n]] + Words(s[n..])
  }

  /** `" ".join(ws)`. */
  function Join(ws: seq<string>): string {
    if ws == [] then "" else if |ws| == 1 then ws[0] else ws[0] + " " + Join(ws[1..])
  }

  /** A word and what follows it. */
  lemma {:induction false} WordsCons(w: string, rest: string)
    requires IsToken(w) && (rest == [] || IsSpace(rest[0]))
    ensures Words(w + rest) == [w] + Words(rest)
  {
    var s := w + rest;
    assert forall i | 0 <= i < |w| :: s[i] == w[i];
    assert rest != [] ==> s[|w|] == rest[0];
    assert s[0] == w[0];
    assert s[..|w|] == w && s[|w|..] == rest;
  }

  /** Joining words and splitting again gives the words back: normalising twice is normalising once. */
  lemma {:induction false} WordsOfJoin(ws: seq<string>)
    requires AreTokens(ws)
    ensures Words(Join(ws)) == ws
    decreases |ws|
  {
    if |ws| == 1 {
      WordsCons(ws[0], "");
      assert ws[0] + "" == ws[0] && ws == [ws[0]];
    } else if |ws| > 1 {
      var rest := Join(ws[1..]);
      WordsOfJoin(ws[1..]);
      WordsCons(ws[0], " " + rest);
      assert (" " + rest)[1..] == rest;
      assert ws[0] + " " + rest == ws[0] + (" " + rest);
      assert ws == [ws[0]] + ws[1..];
    }
  }

  /** Single blanks only, and none at the end: text that normalising leaves alone. */
  predicate Tidy(s: string) {
    (forall i | 0 <= i < |s| && IsSpace(s[i]) :: s[i] == ' ' && i + 1 < |s| && !IsSpace(s[i + 1]))
  }

  /** Tidy text: one word, or a word, one blank and tidy text that starts with a word. */
  lemma {:induction false} TidyParts(s: string) returns (w: string, rest: string)
    requires Tidy(s) && s != [] && !IsSpace(s[0])
    ensures IsToken(w) && (s == w || (s == w + " " + rest && rest != [] && !IsSpace(rest[0]) && Tidy(rest)))
  {
    var n := WordLength(s);
    w, rest := s[..n], "";
    if n < |s| {
      rest := s[n + 1..];
      assert s[n] == ' ' && rest[0] == s[n + 1];
      assert forall i | 0 <= i < |rest| :: rest[i] == s[n + 1 + i];
      assert s == w + " " + rest;
    } else {
      assert s == w;
    }
  }

  lemma {:induction false} WordsStep(w: string, rest: string)
    requires IsToken(w)
    ensures Words(w) == [w]
    ensures Words(w + " " + rest) == [w] + Words(rest)
  {
    WordsCons(w, "");
    assert w + "" == w;
    WordsCons(w, " " + rest);
    assert w + " " + rest == w + (" " + rest);
    BlankFirst(rest);
  }

  lemma {:induction false} BlankFirst(s: string)
    ensures Words(" " + s) == Words(s)
  {
    assert (" " + s)[1..] == s;
  }

  lemma {:induction false} JoinOfWords(s: string)
    requires Tidy(s) && (s == [] || !IsSpace(s[0]))
    ensures Join(Words(s)) == s
    decreases |s|
  {
    if s != [] {
      var w, rest := TidyParts(s);
      WordsStep(w, rest);
      if s != w {
        JoinOfWords(rest);
        NotNoWords(rest);
        JoinCons(w, Words(rest));
      }
    }
  }

  lemma {:induction false} NotNoWords(s: string)
    requires s != [] && !IsSpace(s[0])
    ensures Words(s) != []
  {
  }

  lemma {:induction false} JoinCons(w: string, ws: seq<string>)
    requires ws != []
    ensures Join([w] + ws) == w + " " + Join(ws)
  {
    assert ([w] + ws)[1..] == ws;
  }

  lemma {:induction false} JoinAppend(a: seq<string>, b: seq<string>)
    requires a != [] && b != []
    ensures Join(a + b) == Join(a) + " " + Join(b)
    decreases |a|
  {
    if |a| == 1 {
      assert a + b == [a[0]] + b;
      JoinCons(a[0], b);
    } else {
      JoinAppend(a[1..], b);
      assert a + b == [a[0]] + (a[1..] + b);
      JoinCons(a[0], a[1..] + b);
      assert a == [a[0]] + a[1..];
      JoinCons(a[0], a[1..]);
      assert a[0] + " " + (Join(a[1..]) + " " + Join(b)) == a[0] + " " + Join(a[1..]) + " " + Join(b);
    }
  }

  // ---------------------------------------------------------------- occurrence

  predicate StartsAt(s: string, p: string, i: nat) {
    i + |p| <= |s| && s[i..i + |p|] == p
  }

  /** `p in s`. */
  predicate Contains(s: string, p: string) {
    exists i | 0 <= i <= |s| :: StartsAt(s, p, i)
  }

  lemma {:induction false} ContainsWithin(a: string, s: string, b: string, p: string)
    requires Contains(s, p)
    ensures Contains(a + s + b, p)
  {
    var i :| 0 <= i <= |s| && StartsAt(s, p, i);
    assert (a + s + b)[|a| + i..|a| + i + |p|] == s[i..i + |p|];
    assert StartsAt(a + s + b, p, |a| + i);
  }

  /** A word without blanks lies on one side of a blank. */
  lemma {:induction false} ContainsAcross(a: string, b: string, p: string)
    requires p != "" && ' ' !in p
    ensures Contains(a + " " + b, p) <==> Contains(a, p) || Contains(b, p)
  {
    var s := a + " " + b;
    if Contains(s, p) {
      var i :| 0 <= i <= |s| && StartsAt(s, p, i);
      assert forall j | i <= j < i + |p| :: s[j] == s[i..i + |p|][j - i] && s[j] in p;
      assert s[|a|] == ' ';
      if i + |p| <= |a| {
        assert a[i..i + |p|] == s[i..i + |p|];
        assert StartsAt(a, p, i);
      } else if i > |a| {
        var j := i - |a| - 1;
        assert b[j..j + |p|] == s[i..i + |p|];
        assert StartsAt(b, p, j);
      }
    }
    if Contains(a, p) {
      ContainsWithin("", a, " " + b, p);
      assert "" + a + (" " + b) == s;
    }
    if Contains(b, p) {
      ContainsWithin(a + " ", b, "", p);
      assert a + " " + b + "" == s;
    }
  }

  lemma {:induction false} FoldAcross(a: string, b: string)
    ensures Fold(a + " " + b) == Fold(a) + " " + Fold(b)
  {
  }

  /** Some word of the text contains `p`, in any case. */
  predicate Mentions(ws: seq<string>, p: string) {
    exists i | 0 <= i < |ws| :: Contains(Fold(ws[i]), p)
  }

  /** Looking for a word in the joined text is looking for it in each token. */
  lemma {:induction false} JoinMentions(ws: seq<string>, p: string)
    requires p != "" && ' ' !in p
    ensures Contains(Fold(Join(ws)), p) <==> Mentions(ws, p)
    decreases |ws|
  {
    if |ws| == 1 {
    } else if |ws| > 1 {
      var rest := ws[1..];
      JoinMentions(rest, p);
      FoldAcross(ws[0], Join(rest));
      ContainsAcross(Fold(ws[0]), Fold(Join(rest)), p);
      assert forall i | 0 <= i < |rest| :: rest[i] == ws[i + 1];
    }
  }

  lemma {:induction false} MentionsSplit(a: seq<string>, b: seq<string>, p: string)
    ensures Mentions(a + b, p) <==> Mentions(a, p) || Mentions(b, p)
  {
    if Mentions(a, p) {
      var i :| 0 <= i < |a| && Contains(Fold(a[i]), p);
      assert (a + b)[i] == a[i];
    }
    if Mentions(b, p) {
      var i :| 0 <= i < |b| && Contains(Fold(b[i]), p);
      assert (a + b)[|a| + i] == b[i];
    }
  }
}
