/** `key=value` pairs of an update command: the scanner `_parse_fields` (`nl_crud.py`) runs over free text. */
module NlFields {
  import opened Common
  import opened NlText
  import opened Search

  datatype Key = ForwardIdentity | Enabled | Url | Image | Description
  datatype Value = Flag(b: bool) | Text(s: string)

  /** The keys of the `fields` dictionary. */
  function Name(k: Key): string {
    match k
    case ForwardIdentity => "forwardIdentity"
    case Enabled => "enabled"
    case Url => "url"
    case Image => "image"
    case Description => "description"
  }

  function LowerName(k: Key): string {
    match k
    case ForwardIdentity => "forwardidentity"
    case Enabled => "enabled"
    case Url => "url"
    case Image => "image"
    case Description => "description"
  }

  /** `_as_bool`; None when it raises. */
  function AsBool(raw: string): Option<bool> { Truth(Fold(Strip(raw))) }

  function Truth(v: string): Option<bool> {
    if v == "true" || v == "1" || v == "yes" || v == "да" || v == "on" then Some(true)
    else if v == "false" || v == "0" || v == "no" || v == "нет" || v == "off" then Some(false)
    else None
  }

  // ---------------------------------------------------------------- one pair

  /** `p`, already lower case, at the start of `s` in any case. */
  predicate Begins(s: string, p: string) {
    |p| <= |s| && Fold(s[..|p|]) == p
  }

  /** The key alternative that matches at the start of `s`. */
  function KeyAt(s: string): (k: Option<Key>)
    ensures k.Some? ==> Begins(s, LowerName(k.value))
  {
    if Begins(s, LowerName(ForwardIdentity)) then Some(ForwardIdentity)
    else if Begins(s, LowerName(Enabled)) then Some(Enabled)
    else if Begins(s, LowerName(Url)) then Some(Url)
    else if Begins(s, LowerName(Image)) then Some(Image)
    else if Begins(s, LowerName(Description)) then Some(Description)
    else None
  }

  /** What follows `\s*=\s*`. */
  function AfterEquals(s: string): (r: Option<string>)
    ensures r.Some? ==> |r.value| < |s| && r.value == s[|s| - |r.value|..]
  {
    var t := TrimStart(s);
    if t == [] || t[0] != '=' then None else Some(TrimStart(t[1..]))
  }

  /** Length of a quoted run at the start, quotes included; 0 without a closing quote. */
  function QuotedLength(s: string, q: char): (n: nat)
    ensures n <= |s|
  {
    if s == [] || s[0] != q then 0
    else
      var i := IndexOf(s[1..], q);
      if i == |s| - 1 then 0 else i + 2
  }

  /** Length of the boolean word at the start: a prefix is enough, no word boundary is asked for. */
  function BoolLength(s: string): (n: nat)
    ensures n <= |s|
  {
    if Begins(s, "true") then 4
    else if Begins(s, "false") then 5
    else if Begins(s, "да") then 2
    else if Begins(s, "нет") then 3
    else 0
  }

  /** Length of the value at the start of `s`, by the first alternative that matches; 0 when none does. */
  function ValueLength(s: string): (n: nat)
    ensures n <= |s|
  {
    if QuotedLength(s, '"') > 0 then QuotedLength(s, '"')
    else if QuotedLength(s, '\'') > 0 then QuotedLength(s, '\'')
    else if BoolLength(s) > 0 then BoolLength(s)
    else WordLength(s)
  }

  datatype Hit = Hit(key: Key, raw: string, rest: string)

  /** The value is a stretch of `s`, and the rest is all that follows it. */
  predicate Within(h: Hit, s: string) {
    |h.raw| + |h.rest| < |s|
    && h.raw == s[|s| - |h.rest| - |h.raw|..|s| - |h.rest|]
    && h.rest == s[|s| - |h.rest|..]
  }

  lemma {:induction false} ValueWithin(h: Hit, v: string, n: nat, s: string)
    requires |v| < |s| && v == s[|s| - |v|..] && n <= |v| && h.raw == v[..n] && h.rest == v[n..]
    ensures Within(h, s)
  {
  }

  lemma {:induction false} WithinLonger(h: Hit, n: nat, s: string)
    requires n <= |s| && Within(h, s[n..])
    ensures Within(h, s)
  {
  }

  /** A pair at the very start of `s`, and the text after it. */
  function FieldAt(s: string): (h: Option<Hit>)
    ensures h.Some? ==> Within(h.value, s)
  {
    match KeyAt(s)
    case None => None
    case Some(key) =>
      var n := |LowerName(key)|;
      var h := ValueOf(key, s[n..]);
      if h.None? then None
      else
        WithinLonger(h.value, n, s);
        h
  }

  /** The rest of a pair after its key. */
  function ValueOf(key: Key, s: string): (h: Option<Hit>)
    ensures h.Some? ==> Within(h.value, s)
  {
    match AfterEquals(s)
    case None => None
    case Some(v) =>
      var n := ValueLength(v);
      if n == 0 then None
      else
        var h := Hit(key, v[..n], v[n..]);
        ValueWithin(h, v, n, s);
        Some(h)
  }

  function Unquote(v: string): string {
    if v != "" && v[0] == v[|v| - 1] && (v[0] == '"' || v[0] == '\'')
    then if |v| == 1 then "" else v[1..|v| - 1]
    else v
  }

  predicate IsFlag(key: Key) {
    key == ForwardIdentity || key == Enabled
  }

  /** What a matched pair stores; None when the flag's value is not boolean. */
  function Stored(key: Key, raw: string): Option<Value> {
    if IsFlag(key) then
      match AsBool(Unquote(raw))
      case None => None
      case Some(b) => Some(Flag(b))
    else Some(Text(Unquote(raw)))
  }

  type Fields = map<Key, Value>

  // ---------------------------------------------------------------- the whole text

  /** All matches from left to right (`finditer`). */
  function Scan(s: string): seq<(Key, string)>
    decreases |s|
  {
    if s == [] then []
    else
      match FieldAt(s)
      case None => Scan(s[1..])
      case Some(h) => [(h.key, h.raw)] + Scan(h.rest)
  }

  function Collect(fields: Fields, hits: seq<(Key, string)>): Option<Fields>
    decreases |hits|
  {
    if hits == [] then Some(fields)
    else
      match Stored(hits[0].0, hits[0].1)
      case None => None
      case Some(v) => Collect(fields[hits[0].0 := v], hits[1..])
  }

  /** What `_parse_fields` computes; None when it raises. */
  function FieldsOf(blob: string): Option<Fields> {
    match Collect(map[], Scan(blob))
    case None => None
    case Some(fields) => if fields == map[] then None else Some(fields)
  }

  /** `_parse_fields`. */
  method ParseFields(blob: string) returns (r: Option<Fields>)
    ensures r == FieldsOf(blob)
  {
    var fields: Fields := map[];
    var i := 0;
    while i < |blob|
      invariant 0 <= i <= |blob|
      invariant Collect(map[], Scan(blob)) == Collect(fields, Scan(blob[i..]))
    {
      var s := blob[i..];
      var hit := FieldAt(s);
      if hit.None? {
        i := i + 1;
        assert s[1..] == blob[i..];
      } else {
        var value := Stored(hit.value.key, hit.value.raw);
        var hits := Scan(s);
        assert hits[1..] == Scan(hit.value.rest);
        if value.None? {
          return None;
        }
        fields := fields[hit.value.key := value.value];
        i := |blob| - |hit.value.rest|;
        assert hit.value.rest == blob[i..];
      }
    }
    if fields == map[] {
      return None;
    }
    r := Some(fields);
  }

  // ---------------------------------------------------------------- printing

  /** A string some quote can hold. */
  predicate Quotable(v: string) {
    '"' !in v || '\'' !in v
  }

  /** A value of the key's type that can be written down. */
  predicate Fits(k: Key, v: Value) {
    if IsFlag(k) then v.Flag? else v.Text? && Quotable(v.s)
  }

  predicate Printable(fields: Fields) {
    forall k | k in fields :: Fits(k, fields[k])
  }

  function PrintValue(v: Value): string {
    match v
    case Flag(b) => if b then "true" else "false"
    case Text(s) => if '"' !in s then ['"'] + s + ['"'] else ['\''] + s + ['\'']
  }

  function PrintPair(k: Key, v: Value): string {
    Name(k) + "=" + PrintValue(v)
  }

  /** The pairs of the keys `ks`, in that order, with a blank before each. */
  function PrintPairs(ks: seq<Key>, fields: Fields): string
    requires forall k | k in ks :: k in fields
  {
    if ks == [] then "" else " " + PrintPair(ks[0], fields[ks[0]]) + PrintPairs(ks[1..], fields)
  }

  // ---------------------------------------------------------------- round trip

  lemma {:induction false} BeginsSelf(w: string, p: string, rest: string)
    requires Fold(w) == p
    ensures Begins(w + rest, p)
  {
    assert (w + rest)[..|w|] == w;
  }

  lemma {:induction false} NotBegins(s: string, p: string)
    requires p != "" && s != "" && FoldChar(s[0]) != p[0]
    ensures !Begins(s, p)
  {
    if |p| <= |s| {
      assert Fold(s[..|p|])[0] == FoldChar(s[0]);
    }
  }

  lemma {:induction false} FoldName(k: Key)
    ensures Fold(Name(k)) == LowerName(k)
  {
  }

  /** The five keys start with five different letters, so the first one decides. */
  lemma {:induction false} KeyByLetter(s: string, k: Key)
    requires Begins(s, LowerName(k))
    ensures KeyAt(s) == Some(k)
  {
    assert s != "";
    var l := LowerName(k)[0];
    assert FoldChar(s[0]) == l by { if FoldChar(s[0]) != l { NotBegins(s, LowerName(k)); } }
    forall j: Key | j != k ensures !Begins(s, LowerName(j)) {
      assert LowerName(j)[0] != l;
      NotBegins(s, LowerName(j));
    }
  }

  lemma {:induction false} KeyAtPrinted(k: Key, s: string)
    ensures KeyAt(Name(k) + s) == Some(k)
  {
    FoldName(k);
    BeginsSelf(Name(k), LowerName(k), s);
    KeyByLetter(Name(k) + s, k);
  }

  lemma {:induction false} NothingTrimmed(s: string)
    requires s == [] || !IsSpace(s[0])
    ensures TrimStart(s) == s
  {
  }

  lemma {:induction false} EqualsAt(v: string)
    requires v == [] || !IsSpace(v[0])
    ensures AfterEquals("=" + v) == Some(v)
  {
    var s := "=" + v;
    NothingTrimmed(s);
    NothingTrimmed(v);
    assert s[1..] == v;
  }

  /** A quoted value is read up to its closing quote, whatever follows. */
  lemma {:induction false} QuotedValue(q: char, v: string, rest: string)
    requires (q == '"' || q == '\'') && q !in v
    ensures ValueLength([q] + v + [q] + rest) == |v| + 2
    ensures Unquote([q] + v + [q]) == v
  {
    var s := [q] + v + [q] + rest;
    var t := s[1..];
    assert t == v + [q] + rest;
    assert t[|v|] == q && forall j | 0 <= j < |v| :: t[j] == v[j];
    assert IndexOf(t, q) == |v|;
    assert QuotedLength(s, q) == |v| + 2;
    assert ([q] + v + [q])[1..|v| + 1] == v;
  }

  lemma {:induction false} BoolValue(b: bool, rest: string)
    ensures ValueLength((if b then "true" else "false") + rest) == if b then 4 else 5
  {
    var w := if b then "true" else "false";
    var s := w + rest;
    assert s[0] == w[0];
    assert Fold("true") == "true" && Fold("false") == "false";
    BeginsSelf(w, w, rest);
    if !b { NotBegins(s, "true"); }
  }

  lemma {:induction false} Unfolded(w: string)
    requires w != "" && forall i | 0 <= i < |w| :: 'a' <= w[i] <= 'z'
    ensures Unquote(w) == w && AsBool(w) == Truth(w)
  {
    StripIdentity(w);
    assert Fold(w) == w;
  }

  lemma {:induction false} BoolStored(b: bool)
    ensures AsBool(Unquote(if b then "true" else "false")) == Some(b)
  {
    Unfolded(if b then "true" else "false");
  }

  /** What is printed for a value is read as exactly that much text. */
  lemma {:induction false} PrintedLength(k: Key, v: Value, rest: string)
    requires Fits(k, v)
    ensures ValueLength(PrintValue(v) + rest) == |PrintValue(v)| > 0
    ensures !IsSpace(PrintValue(v)[0])
  {
    match v
    case Flag(b) => BoolValue(b, rest);
    case Text(t) => QuotedValue(if '"' !in t then '"' else '\'', t, rest);
  }

  /** And stored as that value. */
  lemma {:induction false} PrintedStored(k: Key, v: Value)
    requires Fits(k, v)
    ensures Stored(k, PrintValue(v)) == Some(v)
  {
    match v
    case Flag(b) => BoolStored(b);
    case Text(t) => QuotedValue(if '"' !in t then '"' else '\'', t, "");
  }

  lemma {:induction false} PrintedValueOf(k: Key, v: Value, rest: string)
    requires Fits(k, v)
    ensures ValueOf(k, "=" + (PrintValue(v) + rest)) == Some(Hit(k, PrintValue(v), rest))
  {
    var w := PrintValue(v);
    PrintedLength(k, v, rest);
    assert (w + rest)[0] == w[0];
    EqualsAt(w + rest);
    assert (w + rest)[..|w|] == w && (w + rest)[|w|..] == rest;
  }

  /** A canonical key, and then whatever the rest of the pair reads as. */
  lemma {:induction false} NamedField(k: Key, tail: string)
    ensures FieldAt(Name(k) + tail) == ValueOf(k, tail)
  {
    KeyAtPrinted(k, tail);
    FoldName(k);
    assert (Name(k) + tail)[|LowerName(k)|..] == tail;
  }

  lemma {:induction false} PrintedPair(k: Key, v: Value, rest: string)
    requires Fits(k, v)
    ensures FieldAt(PrintPair(k, v) + rest) == Some(Hit(k, PrintValue(v), rest))
  {
    var tail := "=" + (PrintValue(v) + rest);
    assert PrintPair(k, v) + rest == Name(k) + tail;
    NamedField(k, tail);
    PrintedValueOf(k, v, rest);
  }

  lemma {:induction false} BlankSkipped(s: string)
    ensures Scan(" " + s) == Scan(s)
  {
    var t := " " + s;
    assert t[1..] == s;
    forall j: Key ensures !Begins(t, LowerName(j)) {
      NotBegins(t, LowerName(j));
    }
  }

  /** The printed pairs are found one by one. */
  lemma {:induction false} ScanPrinted(k: Key, v: Value, rest: string)
    requires Fits(k, v)
    ensures Scan(" " + PrintPair(k, v) + rest) == [(k, PrintValue(v))] + Scan(rest)
  {
    var s := PrintPair(k, v) + rest;
    assert " " + PrintPair(k, v) + rest == " " + s;
    BlankSkipped(s);
    PrintedPair(k, v, rest);
  }

  function Chosen(ks: seq<Key>, fields: Fields): Fields {
    map k | k in fields && k in ks :: fields[k]
  }

  lemma {:induction false} CollectPrinted(acc: Fields, ks: seq<Key>, fields: Fields)
    requires Printable(fields) && forall k | k in ks :: k in fields
    ensures Collect(acc, Scan(PrintPairs(ks, fields))) == Some(acc + Chosen(ks, fields))
    decreases |ks|
  {
    if ks == [] {
      assert acc + Chosen(ks, fields) == acc;
    } else {
      var k, rest := ks[0], PrintPairs(ks[1..], fields);
      assert k in fields;
      ScanPrinted(k, fields[k], rest);
      PrintedStored(k, fields[k]);
      var hits := [(k, PrintValue(fields[k]))] + Scan(rest);
      assert hits[1..] == Scan(rest);
      CollectPrinted(acc[k := fields[k]], ks[1..], fields);
      ChosenCons(acc, ks, fields);
    }
  }

  lemma {:induction false} ChosenCons(acc: Fields, ks: seq<Key>, fields: Fields)
    requires ks != [] && ks[0] in fields
    ensures acc[ks[0] := fields[ks[0]]] + Chosen(ks[1..], fields) == acc + Chosen(ks, fields)
  {
    assert ks == [ks[0]] + ks[1..];
    assert forall k :: k in Chosen(ks, fields) <==> k == ks[0] || k in Chosen(ks[1..], fields);
    assert acc[ks[0] := fields[ks[0]]] + Chosen(ks[1..], fields) == acc + Chosen(ks, fields);
  }

  lemma {:induction false} AllChosen(ks: seq<Key>, fields: Fields)
    requires forall k :: k in ks <==> k in fields
    ensures map[] + Chosen(ks, fields) == fields
  {
  }

  /** Print, then parse: the same fields, whatever order the pairs were printed in. */
  lemma {:induction false} FieldsRoundTrip(ks: seq<Key>, fields: Fields)
    requires Printable(fields) && fields != map[]
    requires forall k :: k in ks <==> k in fields
    ensures FieldsOf(PrintPairs(ks, fields)) == Some(fields)
  {
    CollectPrinted(map[], ks, fields);
    AllChosen(ks, fields);
  }

  // ---------------------------------------------------------------- bare values

  /** How much of an unquoted value is read. */
  function BareRead(v: string): (n: nat)
    ensures n <= |v|
  {
    if BoolLength(v) > 0 then BoolLength(v) else |v|
  }

  /** After an equals sign the value is read off the front. */
  lemma {:induction false} ValueAfterEquals(k: Key, t: string)
    requires t != "" && !IsSpace(t[0]) && ValueLength(t) > 0
    ensures ValueOf(k, "=" + t) == Some(Hit(k, t[..ValueLength(t)], t[ValueLength(t)..]))
  {
    EqualsAt(t);
  }

  lemma {:induction false} CutAppend(v: string, rest: string, n: nat)
    requires n <= |v|
    ensures (v + rest)[..n] == v[..n] && (v + rest)[n..] == v[n..] + rest
  {
  }

  lemma {:induction false} BareValueOf(v: string, rest: string)
    requires IsToken(v) && v[0] != '"' && v[0] != '\'' && (rest == [] || IsSpace(rest[0]))
    ensures ValueOf(Url, "=" + (v + rest)) == Some(Hit(Url, v[..BareRead(v)], v[BareRead(v)..] + rest))
  {
    assert (v + rest)[0] == v[0];
    BareLength(v, rest);
    ValueAfterEquals(Url, v + rest);
    CutAppend(v, rest, BareRead(v));
  }

  lemma {:induction false} BareField(v: string, rest: string)
    requires IsToken(v) && v[0] != '"' && v[0] != '\'' && (rest == [] || IsSpace(rest[0]))
    ensures FieldAt("url=" + v + rest) == Some(Hit(Url, v[..BareRead(v)], v[BareRead(v)..] + rest))
  {
    var tail := "=" + (v + rest);
    assert "url=" + v + rest == Name(Url) + tail;
    NamedField(Url, tail);
    BareValueOf(v, rest);
  }

  /** An unquoted value comes back whole exactly when it does not start with a boolean word it is not. */
  lemma {:induction false} BareValueSurvivesIff(v: string, rest: string)
    requires IsToken(v) && v[0] != '"' && v[0] != '\'' && (rest == [] || IsSpace(rest[0]))
    ensures FieldAt("url=" + v + rest).Some?
    ensures FieldAt("url=" + v + rest).value.raw == v <==> BoolLength(v) == 0 || BoolLength(v) == |v|
  {
    BareField(v, rest);
    PrefixIsWholeIff(v, BareRead(v));
  }

  lemma {:induction false} PrefixIsWholeIff(v: string, n: nat)
    requires n <= |v|
    ensures v[..n] == v <==> n == |v|
  {
  }

  lemma {:induction false} BeginsWithin(v: string, rest: string, p: string)
    requires rest == [] || IsSpace(rest[0])
    requires forall i | 0 <= i < |p| :: !IsSpace(p[i])
    ensures Begins(v + rest, p) <==> Begins(v, p)
  {
    var s := v + rest;
    if |p| <= |v| {
      assert s[..|p|] == v[..|p|];
    } else if |p| <= |s| {
      assert Fold(s[..|p|])[|v|] == FoldChar(rest[0]);
    }
  }

  lemma {:induction false} BareLength(v: string, rest: string)
    requires IsToken(v) && v[0] != '"' && v[0] != '\'' && (rest == [] || IsSpace(rest[0]))
    ensures ValueLength(v + rest) == if BoolLength(v) > 0 then BoolLength(v) else |v|
  {
    var s := v + rest;
    assert s[0] == v[0];
    BeginsWithin(v, rest, "true");
    BeginsWithin(v, rest, "false");
    BeginsWithin(v, rest, "да");
    BeginsWithin(v, rest, "нет");
    assert forall i | 0 <= i < |v| :: s[i] == v[i];
    assert rest != [] ==> s[|v|] == rest[0];
    assert WordLength(s) == |v|;
  }

  /** `url=truest.com` is stored as `true`. */
  lemma {:induction false} TruestIsCut()
    ensures FieldAt("url=truest.com").Some? && FieldAt("url=truest.com").value.raw == "true"
  {
    TruestLength();
    TruestText();
    BareField("truest.com", "");
  }

  lemma {:induction false} TruestText()
    ensures "url=" + "truest.com" + "" == "url=truest.com" && "truest.com"[..4] == "true"
    ensures "truest.com"[0] != '"' && "truest.com"[0] != '\''
  {
  }

  lemma {:induction false} TruestLength()
    ensures IsToken("truest.com") && BoolLength("truest.com") == 4
  {
    assert "truest.com"[..4] == "true" && Fold("true") == "true";
  }
}
