/** The letters of the command language, as tables. */
module NlLetters {
  import opened Common
  import opened TextMeaning
  import opened NlText

  const CAPITALS := "ABCDEFGHIJKLMNOPQRSTUVWXYZ"
  const SMALLS := "abcdefghijklmnopqrstuvwxyz"
  const RUSSIAN_CAPITALS := "АБВГДЕЖЗИЙКЛМНОПРСТУФХЦЧШЩЪЫЬЭЮЯЁ"
  const RUSSIAN_SMALLS := "абвгдежзийклмнопрстуфхцчшщъыьэюяё"

  /** `d` is `c` in small letters. */
  predicate InSmall(c: char, d: char) {
    || (exists i | 0 <= i < 26 :: c == CAPITALS[i] && d == SMALLS[i])
    || (exists i | 0 <= i < 33 :: c == RUSSIAN_CAPITALS[i] && d == RUSSIAN_SMALLS[i])
    || (c !in CAPITALS && c !in RUSSIAN_CAPITALS && d == c)
  }

  predicate WordLetter(c: char) {
    c in CAPITALS || c in SMALLS || c in "0123456789" || c == '_' || c in RUSSIAN_CAPITALS || c in RUSSIAN_SMALLS
  }

  lemma {:induction false} LatinTables()
    ensures |CAPITALS| == 26 && |SMALLS| == 26
    ensures forall i | 0 <= i < 26 :: CAPITALS[i] as int == 65 + i && SMALLS[i] as int == 97 + i
  {
  }

  lemma {:induction false} RussianCapitals()
    ensures |RUSSIAN_CAPITALS| == 33 && RUSSIAN_CAPITALS[32] as int == 0x401
    ensures forall i | 0 <= i < 32 :: RUSSIAN_CAPITALS[i] as int == 0x410 + i
  {
  }

  lemma {:induction false} RussianSmalls()
    ensures |RUSSIAN_SMALLS| == 33 && RUSSIAN_SMALLS[32] as int == 0x451
    ensures forall i | 0 <= i < 32 :: RUSSIAN_SMALLS[i] as int == 0x430 + i
  {
  }

  lemma {:induction false} AlphabetCodes()
    ensures 'A' as int == 65 && 'Z' as int == 90 && 'a' as int == 97 && 'z' as int == 122
    ensures 'А' as int == 0x410 && 'Я' as int == 0x42F && 'я' as int == 0x44F
    ensures 'Ё' as int == 0x401 && 'ё' as int == 0x451
  {
  }

  lemma {:induction false} LatinMembers(c: char)
    ensures c in CAPITALS <==> 'A' <= c <= 'Z'
    ensures c in SMALLS <==> 'a' <= c <= 'z'
  {
    LatinTables();
    AlphabetCodes();
    if 'A' <= c <= 'Z' { assert CAPITALS[c as int - 65] == c; }
    if 'a' <= c <= 'z' { assert SMALLS[c as int - 97] == c; }
  }

  lemma {:induction false} RussianMembers(c: char)
    ensures c in RUSSIAN_CAPITALS <==> 'А' <= c <= 'Я' || c == 'Ё'
    ensures c in RUSSIAN_SMALLS <==> 0x430 <= c as int <= 0x44F || c == 'ё'
  {
    RussianCapitals();
    RussianSmalls();
    AlphabetCodes();
    if 'А' <= c <= 'Я' { assert RUSSIAN_CAPITALS[c as int - 0x410] == c; }
    if c == 'Ё' { assert RUSSIAN_CAPITALS[32] == c; }
    if 0x430 <= c as int <= 0x44F { assert RUSSIAN_SMALLS[c as int - 0x430] == c; }
    if c == 'ё' { assert RUSSIAN_SMALLS[32] == c; }
  }

  lemma {:induction false} LatinFold(c: char)
    requires 'A' <= c <= 'Z'
    ensures var i := c as int - 65; 0 <= i < 26 && c == CAPITALS[i] && FoldChar(c) == SMALLS[i]
    ensures forall i | 0 <= i < 26 && c == CAPITALS[i] :: FoldChar(c) == SMALLS[i]
  {
    LatinTables();
    AlphabetCodes();
  }

  lemma {:induction false} RussianFoldAt(c: char, k: nat)
    requires k < 33 && k < |RUSSIAN_CAPITALS| && c == RUSSIAN_CAPITALS[k]
    ensures k < |RUSSIAN_SMALLS| && FoldChar(c) == RUSSIAN_SMALLS[k]
  {
    RussianCapitals();
    RussianSmalls();
    AlphabetCodes();
  }

  lemma {:induction false} RussianPlace(c: char) returns (k: nat)
    requires c in RUSSIAN_CAPITALS
    ensures k < 33 && |RUSSIAN_CAPITALS| == |RUSSIAN_SMALLS| == 33 && c == RUSSIAN_CAPITALS[k]
  {
    RussianCapitals();
    RussianSmalls();
    k :| k < |RUSSIAN_CAPITALS| && RUSSIAN_CAPITALS[k] == c;
  }

  /** Lower-casing one character. */
  lemma {:induction false} FoldIff(c: char, d: char)
    ensures FoldChar(c) == d <==> InSmall(c, d)
  {
    LatinTables();
    LatinMembers(c);
    RussianMembers(c);
    AlphabetCodes();
    if 'A' <= c <= 'Z' { LatinFold(c); }
    if c in RUSSIAN_CAPITALS {
      var k := RussianPlace(c);
      forall i | 0 <= i < 33 && c == RUSSIAN_CAPITALS[i] ensures FoldChar(c) == RUSSIAN_SMALLS[i] {
        RussianFoldAt(c, i);
      }
    }
  }

  /** The characters of names. */
  lemma {:induction false} WordLetterIff(c: char)
    ensures IsWordChar(c) <==> WordLetter(c)
  {
    LatinMembers(c);
    RussianMembers(c);
    AlphabetCodes();
    var digits := "0123456789";
    if '0' <= c <= '9' { assert digits[c as int - '0' as int] == c; }
  }

  /** `t` is `s` in small letters. */
  predicate SmallText(s: string, t: string) {
    |t| == |s| && forall i | 0 <= i < |s| :: InSmall(s[i], t[i])
  }

  lemma {:induction false} FoldTextIff(s: string, t: string)
    ensures Fold(s) == t <==> SmallText(s, t)
  {
    forall i | 0 <= i < |s| && |t| == |s| ensures FoldChar(s[i]) == t[i] <==> InSmall(s[i], t[i]) {
      FoldIff(s[i], t[i]);
    }
    if SmallText(s, t) {
      assert forall i | 0 <= i < |s| :: Fold(s)[i] == t[i];
    }
  }

  // ---------------------------------------------------------------- words

  /** White space, a word, and the rest of a text. */
  predicate WordAt(s: string, a: string, w: string, rest: string) {
    && s == a + w + rest && w != "" && (forall i | 0 <= i < |a| :: White(a[i]))
    && (forall i | 0 <= i < |w| :: !White(w[i])) && (rest == "" || White(rest[0]))
  }

  /** A text read as words: white space, a word, white space, and so on. */
  ghost predicate Splits(s: string, ws: seq<string>)
    decreases |ws|
  {
    if ws == [] then forall i | 0 <= i < |s| :: White(s[i])
    else exists a, rest :: WordAt(s, a, ws[0], rest) && Splits(rest, ws[1..])
  }

  lemma {:induction false} WhiteFirst(s: string)
    requires s != "" && White(s[0])
    ensures Words(s) == Words(s[1..])
  {
    SpaceIs(s[0]);
  }

  lemma {:induction false} WordFirst(w: string, rest: string)
    requires w != "" && (forall i | 0 <= i < |w| :: !White(w[i])) && (rest == "" || White(rest[0]))
    ensures Words(w + rest) == [w] + Words(rest)
  {
    SpacesAre();
    WordsCons(w, rest);
  }

  lemma {:induction false} SkipWhite(a: string, s: string)
    requires forall i | 0 <= i < |a| :: White(a[i])
    ensures Words(a + s) == Words(s)
  {
    if a == "" {
      assert a + s == s;
    } else {
      WhiteFirst(a + s);
      assert (a + s)[1..] == a[1..] + s;
      SkipWhite(a[1..], s);
    }
  }

  lemma {:induction false} WordRead(s: string, a: string, w: string, rest: string)
    requires WordAt(s, a, w, rest)
    ensures Words(s) == [w] + Words(rest)
  {
    SkipWhite(a, w + rest);
    assert s == a + (w + rest);
    WordFirst(w, rest);
  }

  lemma {:induction false} SplitsIsWords(s: string, ws: seq<string>)
    requires Splits(s, ws)
    ensures Words(s) == ws
    decreases |ws|
  {
    if ws == [] {
      SkipWhite(s, "");
      assert s + "" == s;
    } else {
      var a, rest :| WordAt(s, a, ws[0], rest) && Splits(rest, ws[1..]);
      WordRead(s, a, ws[0], rest);
      SplitsIsWords(rest, ws[1..]);
    }
  }

  lemma {:induction false} FirstWord(s: string) returns (w: string, rest: string)
    requires s != "" && !White(s[0])
    ensures WordAt(s, "", w, rest) && Words(s) == [w] + Words(rest) && |rest| < |s|
  {
    SpacesAre();
    var n := WordLength(s);
    w, rest := s[..n], s[n..];
    assert s == "" + w + rest;
  }

  lemma {:induction false} WordsSplit(s: string)
    ensures Splits(s, Words(s))
    decreases |s|
  {
    if s == "" {
    } else if White(s[0]) {
      WhiteFirst(s);
      WordsSplit(s[1..]);
      SplitsWider(s, Words(s));
    } else {
      var w, rest := FirstWord(s);
      WordsSplit(rest);
      var ws := Words(s);
      assert ws[0] == w && ws[1..] == Words(rest);
      assert WordAt(s, "", ws[0], rest) && Splits(rest, ws[1..]);
    }
  }

  lemma {:induction false} SplitsWider(s: string, ws: seq<string>)
    requires s != "" && White(s[0]) && Splits(s[1..], ws)
    ensures Splits(s, ws)
  {
    if ws == [] {
      assert forall i | 1 <= i < |s| :: s[i] == s[1..][i - 1];
    } else {
      var a, rest :| WordAt(s[1..], a, ws[0], rest) && Splits(rest, ws[1..]);
      WordAtWider(s, a, ws[0], rest);
    }
  }

  lemma {:induction false} WordAtWider(s: string, a: string, w: string, rest: string)
    requires s != "" && White(s[0]) && WordAt(s[1..], a, w, rest)
    ensures WordAt(s, [s[0]] + a, w, rest)
  {
    assert s == [s[0]] + s[1..];
    assert [s[0]] + (a + w + rest) == ([s[0]] + a) + w + rest;
  }

  /** The words of a text. */
  lemma {:induction false} WordsIff(s: string, ws: seq<string>)
    ensures Words(s) == ws <==> Splits(s, ws)
  {
    WordsSplit(s);
    if Splits(s, ws) { SplitsIsWords(s, ws); }
  }
}
