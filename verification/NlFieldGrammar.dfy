/** The `key=value` pairs of an update, written down as a grammar: which keys there are, how far a value reaches,
    what it stands for, and which pair counts when a key is given twice. */
module NlFieldGrammar {
  import opened Common
  import opened TextMeaning
  import opened Search
  import opened NlText
  import opened NlFields
  import opened NlLetters

  // ---------------------------------------------------------------- one pair

  /** `word`, in any case. */
  predicate Reads(text: string, word: string) {
    SmallText(text, word)
  }

  predicate KeySaid(text: string, k: Key) {
    match k
    case ForwardIdentity => Reads(text, "forwardidentity")
    case Enabled => Reads(text, "enabled")
    case Url => Reads(text, "url")
    case Image => Reads(text, "image")
    case Description => Reads(text, "description")
  }

  predicate Whites(s: string) {
    forall i | 0 <= i < |s| :: White(s[i])
  }

  predicate BooleanWord(text: string) {
    Reads(text, "true") || Reads(text, "false") || Reads(text, "да") || Reads(text, "нет")
  }

  /** A quoted run at the front of `v`. */
  predicate Quoted(v: string, raw: string, q: char) {
    && 2 <= |raw| <= |v| && v[..|raw|] == raw && raw[0] == q && raw[|raw| - 1] == q
    && forall i | 0 < i < |raw| - 1 :: raw[i] != q
  }

  predicate Closes(v: string, q: char) {
    v != "" && v[0] == q && exists i | 0 < i < |v| :: v[i] == q
  }

  ghost predicate BooleanInFront(v: string) {
    exists n | 0 <= n <= |v| :: BooleanWord(v[..n])
  }

  /** The value at the front of `v`: a double-quoted run, a single-quoted run, a boolean word even when more letters
      follow, or all up to the next white space; the first that there is. */
  ghost predicate ValueSaid(v: string, raw: string) {
    && |raw| <= |v| && v[..|raw|] == raw
    && if Closes(v, '"') then Quoted(v, raw, '"')
       else if Closes(v, '\'') then Quoted(v, raw, '\'')
       else if BooleanInFront(v) then BooleanWord(raw)
       else raw != "" && (forall i | 0 <= i < |raw| :: !White(raw[i])) && (|v| > |raw| ==> White(v[|raw|]))
  }

  lemma {:induction false} BeginsIff(s: string, p: string)
    ensures Begins(s, p) <==> |p| <= |s| && Reads(s[..|p|], p)
  {
    if |p| <= |s| { FoldTextIff(s[..|p|], p); }
  }

  lemma {:induction false} QuotedIff(v: string, q: char)
    ensures QuotedLength(v, q) > 0 <==> Closes(v, q)
    ensures Closes(v, q) ==> forall raw :: Quoted(v, raw, q) <==> raw == v[..QuotedLength(v, q)]
  {
    if v != "" && v[0] == q {
      var rest := v[1..];
      var i := IndexOf(rest, q);
      assert forall j | 0 <= j < |rest| :: rest[j] == v[j + 1];
      if Closes(v, q) {
        var j :| 0 < j < |v| && v[j] == q;
        assert rest[j - 1] == q;
        forall raw ensures Quoted(v, raw, q) <==> raw == v[..i + 2] {
          QuotedOne(v, raw, q, i);
        }
      }
    }
  }

  lemma {:induction false} QuotedOne(v: string, raw: string, q: char, i: nat)
    requires i + 2 <= |v| && v[0] == q && v[i + 1] == q && forall j | 0 < j <= i :: v[j] != q
    ensures Quoted(v, raw, q) <==> raw == v[..i + 2]
  {
    if Quoted(v, raw, q) {
      assert v[|raw| - 1] == q;
    }
  }

  lemma {:induction false} WordLengths()
    ensures |"true"| == 4 && |"false"| == 5 && |"да"| == 2 && |"нет"| == 3
  {
  }

  lemma {:induction false} FrontIs(v: string, w: string)
    ensures (exists n :: 0 <= n <= |v| && Reads(v[..n], w)) <==> Begins(v, w)
    ensures forall n | 0 <= n <= |v| && Reads(v[..n], w) :: n == |w|
  {
    BeginsIff(v, w);
  }

  /** No boolean word begins another. */
  lemma {:induction false} OneBoolean(v: string)
    ensures !(Begins(v, "true") && Begins(v, "false")) && !(Begins(v, "true") && Begins(v, "да"))
    ensures !(Begins(v, "true") && Begins(v, "нет")) && !(Begins(v, "false") && Begins(v, "да"))
    ensures !(Begins(v, "false") && Begins(v, "нет")) && !(Begins(v, "да") && Begins(v, "нет"))
  {
    if v != "" {
      if FoldChar(v[0]) != 't' { NotBegins(v, "true"); }
      if FoldChar(v[0]) != 'f' { NotBegins(v, "false"); }
      if FoldChar(v[0]) != 'д' { NotBegins(v, "да"); }
      if FoldChar(v[0]) != 'н' { NotBegins(v, "нет"); }
    }
  }

  lemma {:induction false} BooleanIff(v: string, raw: string)
    requires |raw| <= |v| && v[..|raw|] == raw
    ensures BooleanInFront(v) <==> BoolLength(v) > 0
    ensures BooleanWord(raw) <==> BoolLength(v) > 0 && |raw| == BoolLength(v)
  {
    WordLengths();
    OneBoolean(v);
    FrontIs(v, "true");
    FrontIs(v, "false");
    FrontIs(v, "да");
    FrontIs(v, "нет");
  }

  lemma {:induction false} PlainIff(v: string, raw: string)
    requires |raw| <= |v| && v[..|raw|] == raw
    ensures |raw| == WordLength(v)
       <==> (forall i | 0 <= i < |raw| :: !White(raw[i])) && (|v| > |raw| ==> White(v[|raw|]))
  {
    SpacesAre();
    var n := WordLength(v);
    assert forall i | 0 <= i < |raw| :: raw[i] == v[i];
    if |raw| > n { assert raw[n] == v[n]; }
  }

  lemma {:induction false} ValueIff(v: string, raw: string)
    ensures ValueSaid(v, raw) <==> raw != "" && |raw| == ValueLength(v) && v[..|raw|] == raw
  {
    QuotedIff(v, '"');
    QuotedIff(v, '\'');
    if |raw| <= |v| && v[..|raw|] == raw {
      BooleanIff(v, raw);
      PlainIff(v, raw);
    }
  }

  /** A key, an equals sign with any white space around it, and a value; `rest` is what follows. */
  ghost predicate PairSaid(s: string, k: Key, raw: string, rest: string) {
    exists text, a, b :: PairAt(s, k, raw, rest, text, a, b)
  }

  ghost predicate PairAt(s: string, k: Key, raw: string, rest: string, text: string, a: string, b: string) {
    && s == text + (a + ("=" + (b + (raw + rest)))) && KeySaid(text, k) && Whites(a) && Whites(b)
    && raw != "" && !White(raw[0]) && ValueSaid(raw + rest, raw)
  }

  lemma {:induction false} TrimmedOff(s: string, t: string) returns (a: string)
    requires t == TrimStart(s)
    ensures s == a + t && Whites(a) && (t == "" || !White(t[0]))
  {
    SpacesAre();
    a := s[..|s| - |t|];
  }

  lemma {:induction false} TrimmedTo(a: string, t: string)
    requires Whites(a) && (t == "" || !White(t[0]))
    ensures TrimStart(a + t) == t
  {
    if a == "" {
      if t != "" { SpaceIs(t[0]); }
      assert a + t == t;
    } else {
      SpaceIs(a[0]);
      assert (a + t)[1..] == a[1..] + t;
      TrimmedTo(a[1..], t);
    }
  }

  lemma {:induction false} EqualsRead(a: string, b: string, v: string)
    requires Whites(a) && Whites(b) && (v == "" || !White(v[0]))
    ensures AfterEquals(a + ("=" + (b + v))) == Some(v)
  {
    SpaceIs('=');
    TrimmedTo(a, "=" + (b + v));
    assert ("=" + (b + v))[1..] == b + v;
    TrimmedTo(b, v);
  }

  lemma {:induction false} EqualsParts(s: string, v: string) returns (t: string, u: string)
    requires AfterEquals(s) == Some(v)
    ensures t == TrimStart(s) && t == "=" + u && v == TrimStart(u)
  {
    t := TrimStart(s);
    u := t[1..];
    HeadIs(t, '=');
  }

  lemma {:induction false} HeadIs(t: string, c: char)
    requires t != "" && t[0] == c
    ensures t == [c] + t[1..]
  {
  }

  lemma {:induction false} Chained(s: string, a: string, t: string, u: string, b: string, v: string)
    requires s == a + t && t == "=" + u && u == b + v
    ensures s == a + ("=" + (b + v))
  {
  }

  lemma {:induction false} EqualsSaid(s: string, v: string) returns (a: string, b: string)
    requires AfterEquals(s) == Some(v)
    ensures s == a + ("=" + (b + v)) && Whites(a) && Whites(b) && (v == "" || !White(v[0]))
  {
    var t, u := EqualsParts(s, v);
    a := TrimmedOff(s, t);
    b := TrimmedOff(u, v);
    Chained(s, a, t, u, b, v);
  }

  lemma {:induction false} KeyIs(text: string, k: Key)
    ensures KeySaid(text, k) <==> Reads(text, LowerName(k))
    ensures KeySaid(text, k) ==> |text| == |LowerName(k)|
  {
  }

  lemma {:induction false} KeyRead(text: string, k: Key, tail: string)
    requires KeySaid(text, k)
    ensures KeyAt(text + tail) == Some(k) && (text + tail)[|LowerName(k)|..] == tail
  {
    KeyIs(text, k);
    assert (text + tail)[..|text|] == text;
    BeginsIff(text + tail, LowerName(k));
    KeyByLetter(text + tail, k);
  }

  lemma {:induction false} PairRead(s: string, k: Key, raw: string, rest: string, text: string, a: string, b: string)
    requires PairAt(s, k, raw, rest, text, a, b)
    ensures FieldAt(s) == Some(Hit(k, raw, rest))
  {
    var v := raw + rest;
    var tail := a + ("=" + (b + v));
    assert v[0] == raw[0];
    KeyRead(text, k, tail);
    EqualsRead(a, b, v);
    ValueIff(v, raw);
    assert v[..|raw|] == raw && v[|raw|..] == rest;
  }

  lemma {:induction false} ValueParts(k: Key, s: string, h: Hit)
    requires ValueOf(k, s) == Some(h)
    ensures h.key == k && AfterEquals(s) == Some(h.raw + h.rest)
    ensures h.raw != "" && |h.raw| == ValueLength(h.raw + h.rest)
  {
    var v := AfterEquals(s).value;
    var n := ValueLength(v);
    CutAt(v, n);
    assert h.raw == v[..n] && h.rest == v[n..];
  }

  lemma {:induction false} CutAt(v: string, n: nat)
    requires n <= |v|
    ensures v == v[..n] + v[n..]
  {
  }

  lemma {:induction false} FieldParts(s: string, h: Hit)
    requires FieldAt(s) == Some(h)
    ensures Begins(s, LowerName(h.key))
    ensures AfterEquals(s[|LowerName(h.key)|..]) == Some(h.raw + h.rest)
    ensures h.raw != "" && |h.raw| == ValueLength(h.raw + h.rest)
  {
    var k := KeyAt(s).value;
    ValueParts(k, s[|LowerName(k)|..], h);
  }

  lemma {:induction false} KeyFound(s: string, k: Key) returns (text: string)
    requires Begins(s, LowerName(k))
    ensures KeySaid(text, k) && s == text + s[|LowerName(k)|..]
  {
    BeginsIff(s, LowerName(k));
    text := s[..|LowerName(k)|];
    KeyIs(text, k);
  }

  lemma {:induction false} ValueFound(raw: string, rest: string)
    requires raw != "" && |raw| == ValueLength(raw + rest)
    ensures ValueSaid(raw + rest, raw)
  {
    ValueIff(raw + rest, raw);
    assert (raw + rest)[..|raw|] == raw;
  }

  lemma {:induction false} PairFound(s: string, h: Hit) returns (text: string, a: string, b: string)
    requires FieldAt(s) == Some(h)
    ensures PairAt(s, h.key, h.raw, h.rest, text, a, b)
  {
    var v := h.raw + h.rest;
    FieldParts(s, h);
    text := KeyFound(s, h.key);
    a, b := EqualsSaid(s[|LowerName(h.key)|..], v);
    ValueFound(h.raw, h.rest);
    assert v[0] == h.raw[0];
  }

  /** A pair at the front of a text. */
  lemma {:induction false} PairIff(s: string, k: Key, raw: string, rest: string)
    ensures FieldAt(s) == Some(Hit(k, raw, rest)) <==> PairSaid(s, k, raw, rest)
  {
    if PairSaid(s, k, raw, rest) {
      var text, a, b :| PairAt(s, k, raw, rest, text, a, b);
      PairRead(s, k, raw, rest, text, a, b);
    }
    if FieldAt(s) == Some(Hit(k, raw, rest)) {
      var text, a, b := PairFound(s, Hit(k, raw, rest));
    }
  }

  // ---------------------------------------------------------------- what a value stands for

  /** The value without a pair of quotes around it; a lone quote is empty. */
  predicate Bare(raw: string, t: string) {
    if raw != "" && raw[0] == raw[|raw| - 1] && (raw[0] == '"' || raw[0] == '\'')
    then t == (if |raw| == 1 then "" else raw[1..|raw| - 1])
    else t == raw
  }

  predicate Yes(f: string) {
    f == "true" || f == "1" || f == "yes" || f == "да" || f == "on"
  }

  predicate No(f: string) {
    f == "false" || f == "0" || f == "no" || f == "нет" || f == "off"
  }

  ghost predicate Truthful(t: string, b: bool) {
    exists w, f :: Trims(t, w) && SmallText(w, f) && if b then Yes(f) else No(f)
  }

  /** Switches take a word for yes or no, the others any text. */
  ghost predicate Stands(k: Key, raw: string, v: Value) {
    exists t :: Bare(raw, t) && if k == ForwardIdentity || k == Enabled then v.Flag? && Truthful(t, v.b)
                                else v == Text(t)
  }

  lemma {:induction false} YesOrNo(f: string)
    ensures Truth(f) == Some(true) <==> Yes(f)
    ensures Truth(f) == Some(false) <==> No(f)
  {
    assert "true"[0] != "false"[0] && "true"[0] != "нет"[0] && "on"[1] != "off"[1] && "1"[0] != "0"[0];
  }

  lemma {:induction false} TruthfulIff(t: string, b: bool)
    ensures AsBool(t) == Some(b) <==> Truthful(t, b)
  {
    var w := Strip(t);
    var f := Fold(w);
    StripIff(t, w);
    FoldTextIff(w, f);
    YesOrNo(f);
    if Truthful(t, b) {
      var w', f' :| Trims(t, w') && SmallText(w', f') && if b then Yes(f') else No(f');
      StripIff(t, w');
      FoldTextIff(w, f');
    }
  }

  lemma {:induction false} StandsIff(k: Key, raw: string, v: Value)
    ensures Stored(k, raw) == Some(v) <==> Stands(k, raw, v)
  {
    var t := Unquote(raw);
    assert forall x :: Bare(raw, x) <==> x == t;
    TruthfulIff(t, true);
    TruthfulIff(t, false);
  }

  // ---------------------------------------------------------------- the whole text

  /** Pairs are looked for from left to right; after one the search goes on behind it. */
  ghost predicate Finds(s: string, hits: seq<(Key, string)>)
    decreases |s|
  {
    if s == "" then hits == []
    else if NoPair(s) then Finds(s[1..], hits)
    else hits != [] && exists rest :: PairSaid(s, hits[0].0, hits[0].1, rest) && |rest| < |s| && Finds(rest, hits[1..])
  }

  ghost predicate NoPair(s: string) {
    forall k, raw, rest :: !PairSaid(s, k, raw, rest)
  }

  lemma {:induction false} NoPairIff(s: string)
    ensures NoPair(s) <==> FieldAt(s).None?
  {
    if FieldAt(s).Some? {
      var h := FieldAt(s).value;
      PairIff(s, h.key, h.raw, h.rest);
    } else {
      forall k, raw, rest ensures !PairSaid(s, k, raw, rest) { PairIff(s, k, raw, rest); }
    }
  }

  lemma {:induction false} OnePair(s: string, h: Hit, k: Key, raw: string, rest: string)
    requires FieldAt(s) == Some(h)
    ensures PairSaid(s, k, raw, rest) <==> k == h.key && raw == h.raw && rest == h.rest
  {
    PairIff(s, k, raw, rest);
  }

  lemma {:induction false} ConsIff<T>(x: T, t: seq<T>, s: seq<T>)
    ensures [x] + t == s <==> s != [] && s[0] == x && t == s[1..]
  {
    if s != [] { assert s == [s[0]] + s[1..]; }
  }

  lemma {:induction false} ScanHead(s: string, h: Hit)
    requires FieldAt(s) == Some(h)
    ensures Scan(s) == [(h.key, h.raw)] + Scan(h.rest)
  {
  }

  lemma {:induction false} ScanPair(s: string, h: Hit, hits: seq<(Key, string)>)
    requires FieldAt(s) == Some(h)
    ensures Scan(s) == hits <==> hits != [] && hits[0] == (h.key, h.raw) && Scan(h.rest) == hits[1..]
  {
    ScanHead(s, h);
    ConsIff((h.key, h.raw), Scan(h.rest), hits);
  }

  /** A text in front of which exactly one pair stands. */
  lemma {:induction false} FindsOne(s: string, key: Key, raw: string, rest: string, hits: seq<(Key, string)>)
    requires |rest| < |s|
    requires forall k, r, t :: PairSaid(s, k, r, t) <==> k == key && r == raw && t == rest
    ensures Finds(s, hits) <==> hits != [] && hits[0] == (key, raw) && Finds(rest, hits[1..])
  {
    assert PairSaid(s, key, raw, rest) && !NoPair(s);
    if hits != [] && hits[0] == (key, raw) {
      assert hits[0].0 == key && hits[0].1 == raw;
    }
  }

  lemma {:induction false} FindsPair(s: string, h: Hit, hits: seq<(Key, string)>)
    requires s != "" && FieldAt(s) == Some(h)
    ensures Finds(s, hits) <==> hits != [] && hits[0] == (h.key, h.raw) && Finds(h.rest, hits[1..])
  {
    forall k, r, t ensures PairSaid(s, k, r, t) <==> k == h.key && r == h.raw && t == h.rest {
      OnePair(s, h, k, r, t);
    }
    Shorter(s, h);
    FindsOne(s, h.key, h.raw, h.rest, hits);
  }

  lemma {:induction false} Shorter(s: string, h: Hit)
    requires FieldAt(s) == Some(h)
    ensures |h.rest| < |s|
  {
    assert Within(h, s);
  }

  lemma {:induction false} FindsIff(s: string, hits: seq<(Key, string)>)
    ensures Scan(s) == hits <==> Finds(s, hits)
    decreases |s|
  {
    if s != "" {
      NoPairIff(s);
      if FieldAt(s).None? {
        FindsIff(s[1..], hits);
      } else {
        var h := FieldAt(s).value;
        ScanPair(s, h, hits);
        FindsPair(s, h, hits);
        if hits != [] { FindsIff(h.rest, hits[1..]); }
      }
    }
  }

  predicate Has(hits: seq<(Key, string)>, k: Key) {
    exists i | 0 <= i < |hits| :: hits[i].0 == k
  }

  predicate Last(hits: seq<(Key, string)>, i: nat) {
    i < |hits| && forall j | i < j < |hits| :: hits[j].0 != hits[i].0
  }

  /** The keys that are given, each with the value of its last pair, over what there was before. */
  ghost predicate Given(before: Fields, hits: seq<(Key, string)>, vals: seq<Value>, fields: Fields) {
    && |vals| == |hits|
    && (forall k :: k in fields <==> k in before || Has(hits, k))
    && (forall k | k in before && !Has(hits, k) :: k in fields && fields[k] == before[k])
    && forall i: nat | Last(hits, i) :: hits[i].0 in fields && fields[hits[i].0] == vals[i]
  }

  /** What an update's text says: its pairs, all with a value that stands for something, the last of each key. */
  ghost predicate FieldsSaid(blob: string, fields: Fields) {
    exists hits, vals :: FieldsSaidBy(blob, hits, vals, fields)
  }

  ghost predicate FieldsSaidBy(blob: string, hits: seq<(Key, string)>, vals: seq<Value>, fields: Fields) {
    && Finds(blob, hits) && hits != [] && Given(map[], hits, vals, fields)
    && forall i | 0 <= i < |hits| :: Stands(hits[i].0, hits[i].1, vals[i])
  }

  ghost predicate Valued(hits: seq<(Key, string)>, vals: seq<Value>) {
    |vals| == |hits| && forall i | 0 <= i < |hits| :: Stored(hits[i].0, hits[i].1) == Some(vals[i])
  }

  lemma {:induction false} HasTail(hits: seq<(Key, string)>, k: Key)
    requires hits != []
    ensures Has(hits, k) <==> hits[0].0 == k || Has(hits[1..], k)
  {
    assert forall i | 1 <= i < |hits| :: hits[i] == hits[1..][i - 1];
    if Has(hits[1..], k) {
      var i :| 0 <= i < |hits| - 1 && hits[1..][i].0 == k;
      assert hits[i + 1].0 == k;
    }
  }

  lemma {:induction false} LastTail(hits: seq<(Key, string)>, i: nat)
    requires hits != []
    ensures i > 0 ==> (Last(hits, i) <==> Last(hits[1..], i - 1))
    ensures Last(hits, 0) <==> !Has(hits[1..], hits[0].0)
  {
    assert forall j | 1 <= j < |hits| :: hits[j] == hits[1..][j - 1];
    assert forall j | 0 <= j < |hits| - 1 :: hits[1..][j] == hits[j + 1];
  }

  lemma {:induction false} GivenCons(before: Fields, hits: seq<(Key, string)>, vals: seq<Value>, fields: Fields)
    requires hits != [] && |vals| == |hits| && Given(before[hits[0].0 := vals[0]], hits[1..], vals[1..], fields)
    ensures Given(before, hits, vals, fields)
  {
    forall k ensures Has(hits, k) <==> hits[0].0 == k || Has(hits[1..], k) { HasTail(hits, k); }
    forall i: nat | Last(hits, i) ensures hits[i].0 in fields && fields[hits[i].0] == vals[i] {
      LastTail(hits, i);
      if i > 0 { assert hits[i] == hits[1..][i - 1] && vals[i] == vals[1..][i - 1]; }
    }
  }

  lemma {:induction false} CollectGives(before: Fields, hits: seq<(Key, string)>) returns (vals: seq<Value>)
    requires Collect(before, hits).Some?
    ensures Valued(hits, vals) && Given(before, hits, vals, Collect(before, hits).value)
    decreases |hits|
  {
    if hits == [] {
      vals := [];
    } else {
      var v := Stored(hits[0].0, hits[0].1).value;
      var rest := CollectGives(before[hits[0].0 := v], hits[1..]);
      vals := [v] + rest;
      assert vals[1..] == rest;
      forall i | 0 <= i < |hits| ensures Stored(hits[i].0, hits[i].1) == Some(vals[i]) {
        if i > 0 { assert hits[i] == hits[1..][i - 1] && vals[i] == rest[i - 1]; }
      }
      GivenCons(before, hits, vals, Collect(before, hits).value);
    }
  }

  lemma {:induction false} CollectsAll(before: Fields, hits: seq<(Key, string)>, vals: seq<Value>)
    requires Valued(hits, vals)
    ensures Collect(before, hits).Some?
    decreases |hits|
  {
    if hits != [] {
      assert forall i | 0 <= i < |hits| - 1 :: hits[1..][i] == hits[i + 1] && vals[1..][i] == vals[i + 1];
      CollectsAll(before[hits[0].0 := vals[0]], hits[1..], vals[1..]);
    }
  }

  lemma {:induction false} LastOf(hits: seq<(Key, string)>, k: Key) returns (i: nat)
    requires Has(hits, k)
    ensures Last(hits, i) && hits[i].0 == k
    decreases |hits|
  {
    HasTail(hits, k);
    if Has(hits[1..], k) {
      var j := LastOf(hits[1..], k);
      i := j + 1;
      LastTail(hits, i);
      assert hits[i] == hits[1..][j];
    } else {
      i := 0;
      LastTail(hits, 0);
    }
  }

  lemma {:induction false} GivenOnce(hits: seq<(Key, string)>, vals: seq<Value>, a: Fields, b: Fields)
    requires Given(map[], hits, vals, a) && Given(map[], hits, vals, b)
    ensures a == b
  {
    forall k | k in a ensures k in b && a[k] == b[k] {
      var i := LastOf(hits, k);
    }
    assert forall k | k in b :: k in a;
  }

  lemma {:induction false} ValuedOnce(hits: seq<(Key, string)>, a: seq<Value>, b: seq<Value>)
    requires Valued(hits, a) && Valued(hits, b)
    ensures a == b
  {
  }

  lemma {:induction false} StandAll(hits: seq<(Key, string)>, vals: seq<Value>)
    requires |vals| == |hits|
    ensures Valued(hits, vals) <==> forall i | 0 <= i < |hits| :: Stands(hits[i].0, hits[i].1, vals[i])
  {
    forall i | 0 <= i < |hits|
      ensures Stored(hits[i].0, hits[i].1) == Some(vals[i]) <==> Stands(hits[i].0, hits[i].1, vals[i])
    {
      StandsIff(hits[i].0, hits[i].1, vals[i]);
    }
  }

  /** The scanner finds exactly the fields that the text says. */
  lemma {:induction false} FieldsIff(blob: string, fields: Fields)
    ensures FieldsOf(blob) == Some(fields) <==> FieldsSaid(blob, fields)
  {
    var hits := Scan(blob);
    FindsIff(blob, hits);
    if FieldsOf(blob) == Some(fields) {
      var vals := CollectGives(map[], hits);
      StandAll(hits, vals);
      assert hits == [] ==> Collect(map[], hits) == Some(map[]);
      assert FieldsSaidBy(blob, hits, vals, fields);
    }
    if FieldsSaid(blob, fields) {
      var hits', vals :| FieldsSaidBy(blob, hits', vals, fields);
      FindsIff(blob, hits');
      FieldsAreSaid(hits, vals, fields);
    }
  }

  lemma {:induction false} FieldsAreSaid(hits: seq<(Key, string)>, vals: seq<Value>, fields: Fields)
    requires hits != [] && Given(map[], hits, vals, fields)
    requires forall i | 0 <= i < |hits| :: Stands(hits[i].0, hits[i].1, vals[i])
    ensures Collect(map[], hits) == Some(fields) && fields != map[]
  {
    StandAll(hits, vals);
    CollectsAll(map[], hits, vals);
    var own := CollectGives(map[], hits);
    ValuedOnce(hits, vals, own);
    GivenOnce(hits, vals, fields, Collect(map[], hits).value);
    assert Has(hits, hits[0].0);
  }
}
