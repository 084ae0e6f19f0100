/** The command language, written down as a grammar: which words may stand where, literally, in both languages, and
    what each choice means. The parser understands exactly this. */
module NlGrammar {
  import opened Common
  import opened NlText
  import opened NlFields
  import opened NlCrud
  import opened Search
  import F = NlFieldGrammar
  import L = NlLetters

  /** A word of the list, in any case. */
  predicate Said(w: string, words: seq<string>) {
    Fold(w) in words
  }

  const CREATE := ["add", "create", "добавь", "добавить", "создай", "создать"]
  const ATTACH := ["add", "create", "добавь", "добавить", "создай", "создать", "attach", "подключи", "подключить"]

  /** Letters, digits, underscores and dashes. */
  predicate NameSaid(n: string) {
    n != "" && forall i | 0 <= i < |n| :: L.WordLetter(n[i]) || n[i] == '-'
  }

  /** The same with dots, for both parts of a gateway. */
  predicate DottedSaid(n: string) {
    n != "" && forall i | 0 <= i < |n| :: L.WordLetter(n[i]) || n[i] == '-' || n[i] == '.'
  }

  predicate GatewaySaid(g: GatewayKey) {
    DottedSaid(g.namespace) && DottedSaid(g.name)
  }

  // ---------------------------------------------------------------- parts of an add

  predicate DirectSaid(src: seq<string>, s: Source) {
    match s
    case RemoteHttp(url) =>
      || (|src| == 2 && Said(src[0], ["url"]) && src[1] == url)
      || (|src| == 3 && Said(src[0], ["с"]) && Said(src[1], ["url"]) && src[2] == url)
    case ContainerImage(image) => |src| == 2 && Said(src[0], ["image", "образ"]) && src[1] == image
    case VmcpProxy(_) => false
  }

  predicate ProxySaid(src: seq<string>, s: Source) {
    && s.VmcpProxy? && GatewaySaid(s.peer)
    && (|| (|src| == 2 && Said(src[0], ["vmcp-proxy"]) && src[1] == s.peer.namespace + "/" + s.peer.name)
        || (|src| == 3 && Said(src[0], ["via", "через"]) && Said(src[1], ["vmcp-proxy"])
            && src[2] == s.peer.namespace + "/" + s.peer.name))
  }

  predicate SourceSaid(src: seq<string>, s: Source) {
    if s.VmcpProxy? then ProxySaid(src, s) else DirectSaid(src, s)
  }

  /** The explicit value after the flag's name. */
  predicate ValueSaid(text: string, v: Option<bool>) {
    || (text == "" && v == None)
    || (text in ["=true", "=да"] && v == Some(true))
    || (text in ["=false", "=нет"] && v == Some(false))
  }

  predicate FlagSaid(flag: seq<string>, v: Option<bool>) {
    || (flag == [] && v == None)
    || (|flag| == 1 && "forwardidentity" <= Fold(flag[0]) && ValueSaid(Fold(flag[0])[15..], v))
    || (|flag| == 1 && "forward_identity" <= Fold(flag[0]) && ValueSaid(Fold(flag[0])[16..], v))
    || (|flag| == 2 && Said(flag[0], ["forward"]) && "identity" <= Fold(flag[1]) && ValueSaid(Fold(flag[1])[8..], v))
  }

  predicate DescriptionSaid(desc: seq<string>, d: Option<string>) {
    || (desc == [] && d == None)
    || (|desc| > 1 && Said(desc[0], ["desc", "description", "описание"]) && d == Some(Join(desc[1..])))
  }

  /** Verb, `mcp`, a name, a preposition, a gateway. */
  predicate HeadSaid(ws: seq<string>, verbs: seq<string>, n: string, preps: seq<string>, g: GatewayKey) {
    && |ws| >= 5 && Said(ws[0], verbs) && Said(ws[1], ["mcp"]) && ws[2] == n && NameSaid(n) && Said(ws[3], preps)
    && ws[4] == g.namespace + "/" + g.name && GatewaySaid(g)
  }

  /** Source, flag and description follow one another. */
  ghost predicate AddSaid(ws: seq<string>, s: Source, v: Option<bool>, d: Option<string>) {
    exists a: nat, b: nat :: AddSaidAt(ws, s, v, d, a, b)
  }

  predicate AddSaidAt(ws: seq<string>, s: Source, v: Option<bool>, d: Option<string>, a: nat, b: nat) {
    a <= b <= |ws| && SourceSaid(ws[..a], s) && FlagSaid(ws[a..b], v) && DescriptionSaid(ws[b..], d)
  }

  /** The flag that is stored: the explicit one, or true when both words stand somewhere in the text. */
  ghost predicate FlagMeant(ws: seq<string>, v: Option<bool>, stored: Option<bool>) {
    if v.Some? then stored == v
    else stored == if NamesFlag(ws) then Some(true) else None
  }

  /** The pairs of an update, behind `set` if it is there. */
  function UpdateText(ws: seq<string>): string
    requires |ws| > 5
  {
    if |ws| > 6 && Said(ws[5], ["set"]) then Join(ws[6..]) else Join(ws[5..])
  }

  /** What the words mean. */
  ghost predicate Means(ws: seq<string>, i: Intent) {
    match i
    case Add(g, n, a) =>
      && (if a.source.VmcpProxy?
          then HeadSaid(ws, ATTACH, n, ["to", "on", "in", "в", "на", "к"], g)
          else HeadSaid(ws, CREATE, n, ["to", "on", "в", "на"], g))
      && exists v :: AddSaid(ws[5..], a.source, v, a.description) && FlagMeant(ws, v, a.forwardIdentity)
    case Remove(g, n) =>
      |ws| == 5 && HeadSaid(ws, ["remove", "delete", "удали", "удалить"], n, ["from", "on", "из"], g)
    case Update(g, n, fields) =>
      && |ws| > 5 && HeadSaid(ws, ["update", "patch", "обнови", "обновить"], n, ["on", "in", "на", "в"], g)
      && F.FieldsSaid(UpdateText(ws), fields)
    case List(g) =>
      && |ws| == 4 && Said(ws[0], ["list", "show", "список", "покажи", "перечисли"]) && Said(ws[1], ["mcp", "mcps"])
      && Said(ws[2], ["on", "in", "for", "для", "на", "в"]) && ws[3] == g.namespace + "/" + g.name && GatewaySaid(g)
    case Get(g, n) =>
      |ws| == 5 && HeadSaid(ws, ["get", "show", "покажи"], n, ["on", "in", "на", "в"], g)
  }

  // ---------------------------------------------------------------- the parts agree

  lemma {:induction false} NameIff(n: string)
    ensures IsName(n) <==> NameSaid(n)
  {
    forall i | 0 <= i < |n| ensures IsWordChar(n[i]) <==> L.WordLetter(n[i]) { L.WordLetterIff(n[i]); }
  }

  lemma {:induction false} DottedIff(n: string)
    ensures IsDotted(n) <==> DottedSaid(n)
  {
    forall i | 0 <= i < |n| ensures IsWordChar(n[i]) <==> L.WordLetter(n[i]) { L.WordLetterIff(n[i]); }
  }

  lemma {:induction false} RefIff(w: string, g: GatewayKey)
    ensures IsRef(w) && RefOf(w) == g <==> w == g.namespace + "/" + g.name && GatewaySaid(g)
  {
    DottedIff(g.namespace);
    DottedIff(g.name);
    if IsGateway(g) { RefIsRef(g); }
    if IsRef(w) { RefRestored(w); }
  }

  /** A reference is cut at its first slash, and neither part may be empty. */
  lemma {:induction false} CutIff(raw: string, g: GatewayKey)
    ensures GatewayOf(raw) == Some(g)
       <==> && raw == g.namespace + "/" + g.name && g.namespace != "" && g.name != ""
            && forall i | 0 <= i < |g.namespace| :: g.namespace[i] != '/'
  {
    var i := IndexOf(raw, '/');
    if i < |raw| { assert raw == raw[..i] + "/" + raw[i + 1..]; }
    var n := |g.namespace|;
    if raw == g.namespace + "/" + g.name && forall j | 0 <= j < n :: g.namespace[j] != '/' {
      assert raw[n] == '/' && forall j | 0 <= j < n :: raw[j] == g.namespace[j];
      assert i == n && raw[..i] == g.namespace && raw[i + 1..] == g.name;
    }
  }

  lemma {:induction false} DirectIff(ws: seq<string>, s: Source, n: nat)
    ensures DirectAt(ws) == Some((s, n)) <==> n <= |ws| && DirectSaid(ws[..n], s)
  {
    if n <= |ws| { assert forall k | 0 <= k < n :: ws[..n][k] == ws[k]; }
  }

  lemma {:induction false} OneWord(w: string, f: string)
    ensures Said(w, [f]) <==> Fold(w) == f
  {
  }

  lemma {:induction false} EitherWord(w: string, f: string, g: string)
    ensures Said(w, [f, g]) <==> Fold(w) == f || Fold(w) == g
  {
  }

  lemma {:induction false} ProxyShort(ws: seq<string>, s: Source)
    requires s.VmcpProxy? && |ws| > 1
    ensures ProxyAt(ws) == Some((s, 2)) <==> ProxySaid(ws[..2], s)
  {
    var src := ws[..2];
    assert |src| == 2 && src[0] == ws[0] && src[1] == ws[1];
    OneWord(ws[0], "vmcp-proxy");
    RefIff(ws[1], s.peer);
  }

  lemma {:induction false} ProxyLong(ws: seq<string>, s: Source)
    requires s.VmcpProxy? && |ws| > 2
    ensures ProxyAt(ws) == Some((s, 3)) <==> ProxySaid(ws[..3], s)
  {
    var src := ws[..3];
    assert |src| == 3 && src[0] == ws[0] && src[1] == ws[1] && src[2] == ws[2];
    EitherWord(ws[0], "via", "через");
    OneWord(ws[1], "vmcp-proxy");
    RefIff(ws[2], s.peer);
  }

  lemma {:induction false} ProxyIff(ws: seq<string>, s: Source, n: nat)
    ensures ProxyAt(ws) == Some((s, n)) <==> n <= |ws| && ProxySaid(ws[..n], s)
  {
    if s.VmcpProxy? && n <= |ws| {
      if n == 2 {
        ProxyShort(ws, s);
      } else if n == 3 {
        ProxyLong(ws, s);
      }
    }
  }

  lemma {:induction false} ValueIff(text: string, v: Option<bool>)
    ensures FlagValue(text) == Some(v) <==> ValueSaid(text, v)
  {
  }

  lemma {:induction false} DescriptionIff(ws: seq<string>, d: Option<string>)
    ensures DescriptionAt(ws) == Some(d) <==> DescriptionSaid(ws, d)
  {
  }

  /** The three spellings of the flag start differently. */
  lemma {:induction false} FlagSpelling(f: string)
    ensures "forwardidentity" <= f ==> f != "forward" && !StartsWith(f, "forward_identity")
    ensures "forward_identity" <= f ==> f != "forward" && !StartsWith(f, "forwardidentity")
    ensures f in ["desc", "description", "описание"] ==>
              f != "forward" && !StartsWith(f, "forward_identity") && !StartsWith(f, "forwardidentity")
  {
    if "forwardidentity" <= f { assert f[7] == 'i' && "forward_identity"[7] == '_'; }
    if "forward_identity" <= f { assert f[7] == '_' && "forwardidentity"[7] == 'i'; }
    if f in ["desc", "description", "описание"] { assert f[0] != 'f' && "forward_identity"[0] == 'f'; }
  }

  lemma {:induction false} PrefixIs(s: string, p: string)
    ensures StartsWith(s, p) <==> p <= s
  {
  }

  /** A flag phrase in front of a description is read as such. */
  lemma {:induction false} FlagRead(ws: seq<string>, b: nat, v: Option<bool>, d: Option<string>)
    requires b <= |ws| && FlagSaid(ws[..b], v) && DescriptionSaid(ws[b..], d)
    ensures FlagAt(ws) == (b, v)
  {
    if ws != [] {
      var f := Fold(ws[0]);
      FlagSpelling(f);
      PrefixIs(f, "forward_identity");
      PrefixIs(f, "forwardidentity");
      if b == 0 {
        assert ws[0..] == ws;
      } else if b == 1 {
        assert ws[..1][0] == ws[0];
        ValueIff(f[if "forwardidentity" <= f then 15 else 16..], v);
      } else {
        assert ws[..2][0] == ws[0] && ws[..2][1] == ws[1];
        PrefixIs(Fold(ws[1]), "identity");
        ValueIff(Fold(ws[1])[8..], v);
      }
    }
  }

  /** What is read as a flag phrase is one. */
  lemma {:induction false} FlagWasSaid(ws: seq<string>)
    ensures FlagSaid(ws[..FlagAt(ws).0], FlagAt(ws).1)
  {
    if FlagAt(ws).0 > 0 {
      var f, n := Fold(ws[0]), FlagAt(ws).0;
      PrefixIs(f, "forward_identity");
      PrefixIs(f, "forwardidentity");
      assert ws[..n][0] == ws[0];
      if n == 2 {
        assert ws[..n][1] == ws[1];
        PrefixIs(Fold(ws[1]), "identity");
        ValueIff(Fold(ws[1])[8..], FlagAt(ws).1);
      } else if "forward_identity" <= f {
        ValueIff(f[16..], FlagAt(ws).1);
      } else {
        ValueIff(f[15..], FlagAt(ws).1);
      }
    }
  }

  /** A flag in the first `b` words, if any, and then a description, if any. */
  predicate TailSaid(ws: seq<string>, b: nat, v: Option<bool>, d: Option<string>) {
    b <= |ws| && FlagSaid(ws[..b], v) && DescriptionSaid(ws[b..], d)
  }

  lemma {:induction false} TailWasSaid(ws: seq<string>, v: Option<bool>, d: Option<string>) returns (b: nat)
    requires TailOf(ws) == Some(Tail(v, d))
    ensures TailSaid(ws, b, v, d)
  {
    b := FlagAt(ws).0;
    FlagWasSaid(ws);
    DescriptionIff(ws[b..], d);
  }

  lemma {:induction false} TailRead(ws: seq<string>, b: nat, v: Option<bool>, d: Option<string>)
    requires TailSaid(ws, b, v, d)
    ensures TailOf(ws) == Some(Tail(v, d))
  {
    FlagRead(ws, b, v, d);
    DescriptionIff(ws[b..], d);
  }

  function SourceAt(proxy: bool, ws: seq<string>): (r: Option<(Source, nat)>)
    ensures r.Some? ==> 2 <= r.value.1 <= |ws|
  {
    if proxy then ProxyAt(ws) else DirectAt(ws)
  }

  lemma {:induction false} SourceIff(ws: seq<string>, s: Source, n: nat)
    ensures SourceAt(s.VmcpProxy?, ws) == Some((s, n)) <==> n <= |ws| && SourceSaid(ws[..n], s)
  {
    if s.VmcpProxy? { ProxyIff(ws, s, n); } else { DirectIff(ws, s, n); }
  }

  /** Source and tail as the parser finds them. */
  predicate AddRead(ws: seq<string>, s: Source, v: Option<bool>, d: Option<string>) {
    var r := SourceAt(s.VmcpProxy?, ws);
    r.Some? && r.value.0 == s && TailOf(ws[r.value.1..]) == Some(Tail(v, d))
  }

  lemma {:induction false} Slices(ws: seq<string>, a: nat, b: nat)
    requires a <= b <= |ws|
    ensures ws[a..][..b - a] == ws[a..b] && ws[a..][b - a..] == ws[b..]
  {
  }

  lemma {:induction false} ReadIsSaid(ws: seq<string>, s: Source, v: Option<bool>, d: Option<string>)
    requires AddRead(ws, s, v, d)
    ensures AddSaid(ws, s, v, d)
  {
    var a := SourceAt(s.VmcpProxy?, ws).value.1;
    SourceIff(ws, s, a);
    var n := TailWasSaid(ws[a..], v, d);
    Slices(ws, a, a + n);
    assert AddSaidAt(ws, s, v, d, a, a + n);
  }

  lemma {:induction false} SaidIsRead(ws: seq<string>, s: Source, v: Option<bool>, d: Option<string>)
    requires AddSaid(ws, s, v, d)
    ensures AddRead(ws, s, v, d)
  {
    var a: nat, b: nat :| AddSaidAt(ws, s, v, d, a, b);
    SourceIff(ws, s, a);
    Slices(ws, a, b);
    TailRead(ws[a..], b - a, v, d);
  }

  // ---------------------------------------------------------------- whole commands

  lemma {:induction false} HeadIff(ws: seq<string>, verbs: seq<string>, n: string, preps: seq<string>, g: GatewayKey)
    ensures HeadSaid(ws, verbs, n, preps, g) <==>
            Named(ws) && Fold(ws[0]) in verbs && Fold(ws[3]) in preps && ws[2] == n && RefOf(ws[4]) == g
  {
    if |ws| >= 5 {
      NameIff(ws[2]);
      RefIff(ws[4], g);
      assert Said(ws[1], ["mcp"]) <==> Fold(ws[1]) == "mcp";
    }
  }

  lemma {:induction false} FlagStored(ws: seq<string>, v: Option<bool>, stored: Option<bool>)
    ensures FlagOf(v, Join(ws)) == stored <==> FlagMeant(ws, v, stored)
  {
    FlagOfWords(v, ws);
  }

  /** The pattern an intent comes from. */
  function PatternFor(i: Intent): Pattern {
    match i
    case Add(_, _, a) => if a.source.VmcpProxy? then AddProxyPattern else AddPattern
    case Remove(_, _) => RemovePattern
    case Update(_, _, _) => UpdatePattern
    case List(_) => ListPattern
    case Get(_, _) => GetPattern
  }

  lemma {:induction false} AddWords(f: string)
    ensures CreateVerb(f) <==> f in CREATE
    ensures AttachVerb(f) <==> f in ATTACH
    ensures CreatePrep(f) <==> f in ["to", "on", "в", "на"]
    ensures AttachPrep(f) <==> f in ["to", "on", "in", "в", "на", "к"]
  {
  }

  /** The head of an add. */
  predicate AddHead(ws: seq<string>, i: Intent)
    requires i.Add?
  {
    if i.added.source.VmcpProxy? then HeadSaid(ws, ATTACH, i.name, ["to", "on", "in", "в", "на", "к"], i.gateway)
    else HeadSaid(ws, CREATE, i.name, ["to", "on", "в", "на"], i.gateway)
  }

  lemma {:induction false} AddHeadIff(ws: seq<string>, i: Intent)
    requires i.Add?
    ensures AddHead(ws, i) <==>
              && Named(ws) && ws[2] == i.name && RefOf(ws[4]) == i.gateway
              && if i.added.source.VmcpProxy? then AttachVerb(Fold(ws[0])) && AttachPrep(Fold(ws[3]))
                 else CreateVerb(Fold(ws[0])) && CreatePrep(Fold(ws[3]))
  {
    if i.added.source.VmcpProxy? {
      HeadIff(ws, ATTACH, i.name, ["to", "on", "in", "в", "на", "к"], i.gateway);
    } else {
      HeadIff(ws, CREATE, i.name, ["to", "on", "в", "на"], i.gateway);
    }
    if |ws| >= 5 {
      AddWords(Fold(ws[0]));
      AddWords(Fold(ws[3]));
    }
  }

  lemma {:induction false} AddIsRead(ws: seq<string>, i: Intent)
    requires i.Add? && Means(ws, i)
    ensures Matches(PatternFor(i), ws) && Read(PatternFor(i), ws) == Ok(i)
  {
    var s := i.added.source;
    assert AddHead(ws, i);
    AddHeadIff(ws, i);
    var v :| AddSaid(ws[5..], s, v, i.added.description) && FlagMeant(ws, v, i.added.forwardIdentity);
    SaidIsRead(ws[5..], s, v, i.added.description);
    FlagStored(ws, v, i.added.forwardIdentity);
  }

  lemma {:induction false} ReadIsMeant(ws: seq<string>, i: Intent)
    requires i.Add? && Matches(PatternFor(i), ws) && Read(PatternFor(i), ws) == Ok(i)
    ensures Means(ws, i)
  {
    var s := i.added.source;
    var r := SourceAt(s.VmcpProxy?, ws[5..]);
    var tail := TailOf(ws[5..][r.value.1..]).value;
    AddHeadIff(ws, i);
    ReadIsSaid(ws[5..], s, tail.flag, i.added.description);
    FlagStored(ws, tail.flag, i.added.forwardIdentity);
  }

  lemma {:induction false} RemoveWords(verb: string, prep: string)
    ensures RemoveVerb(verb) <==> verb in ["remove", "delete", "удали", "удалить"]
    ensures RemovePrep(prep) <==> prep in ["from", "on", "из"]
  {
  }

  lemma {:induction false} GetWords(verb: string, prep: string)
    ensures GetVerb(verb) <==> verb in ["get", "show", "покажи"]
    ensures AtPrep(prep) <==> prep in ["on", "in", "на", "в"]
  {
  }

  lemma {:induction false} ListWords(verb: string, noun: string, prep: string)
    ensures ListVerb(verb) <==> verb in ["list", "show", "список", "покажи", "перечисли"]
    ensures noun == "mcp" || noun == "mcps" <==> noun in ["mcp", "mcps"]
    ensures ListPrep(prep) <==> prep in ["on", "in", "for", "для", "на", "в"]
  {
  }

  lemma {:induction false} RemoveMeans(ws: seq<string>, i: Intent)
    requires i.Remove?
    ensures (Matches(RemovePattern, ws) && Read(RemovePattern, ws) == Ok(i)) <==> Means(ws, i)
  {
    HeadIff(ws, ["remove", "delete", "удали", "удалить"], i.name, ["from", "on", "из"], i.gateway);
    if |ws| == 5 { RemoveWords(Fold(ws[0]), Fold(ws[3])); }
  }

  lemma {:induction false} UpdateTextIs(ws: seq<string>)
    requires |ws| > 5
    ensures ws[5..] != [] && UpdateText(ws) == Blob(ws[5..])
  {
    assert ws[5..][0] == ws[5] && ws[5..][1..] == ws[6..];
    assert Said(ws[5], ["set"]) <==> Fold(ws[5]) == "set";
  }

  lemma {:induction false} UpdateRead(ws: seq<string>, i: Intent)
    requires i.Update?
    ensures (Matches(UpdatePattern, ws) && Read(UpdatePattern, ws) == Ok(i))
       <==> && |ws| > 5
            && HeadSaid(ws, ["update", "patch", "обнови", "обновить"], i.name, ["on", "in", "на", "в"], i.gateway)
            && FieldsOf(UpdateText(ws)) == Some(i.fields)
  {
    var verbs, preps := ["update", "patch", "обнови", "обновить"], ["on", "in", "на", "в"];
    HeadIff(ws, verbs, i.name, preps, i.gateway);
    if |ws| > 5 {
      UpdateTextIs(ws);
      UpdateWords(Fold(ws[0]), Fold(ws[3]));
    }
  }

  lemma {:induction false} UpdateWords(verb: string, prep: string)
    ensures UpdateVerb(verb) <==> verb in ["update", "patch", "обнови", "обновить"]
    ensures AtPrep(prep) <==> prep in ["on", "in", "на", "в"]
  {
  }

  lemma {:induction false} UpdateMeans(ws: seq<string>, i: Intent)
    requires i.Update?
    ensures (Matches(UpdatePattern, ws) && Read(UpdatePattern, ws) == Ok(i)) <==> Means(ws, i)
  {
    UpdateRead(ws, i);
    if |ws| > 5 { F.FieldsIff(UpdateText(ws), i.fields); }
  }

  lemma {:induction false} ListMeans(ws: seq<string>, i: Intent)
    requires i.List?
    ensures (Matches(ListPattern, ws) && Read(ListPattern, ws) == Ok(i)) <==> Means(ws, i)
  {
    if |ws| == 4 {
      ListWords(Fold(ws[0]), Fold(ws[1]), Fold(ws[2]));
      RefIff(ws[3], i.gateway);
    }
  }

  lemma {:induction false} GetMeans(ws: seq<string>, i: Intent)
    requires i.Get?
    ensures (Matches(GetPattern, ws) && Read(GetPattern, ws) == Ok(i)) <==> Means(ws, i)
  {
    HeadIff(ws, ["get", "show", "покажи"], i.name, ["on", "in", "на", "в"], i.gateway);
    if |ws| == 5 { GetWords(Fold(ws[0]), Fold(ws[3])); }
  }

  lemma {:induction false} MeansIff(ws: seq<string>, i: Intent)
    ensures (Matches(PatternFor(i), ws) && Read(PatternFor(i), ws) == Ok(i)) <==> Means(ws, i)
  {
    match i {
      case Add(_, _, _) =>
        if Means(ws, i) { AddIsRead(ws, i); }
        if Matches(PatternFor(i), ws) && Read(PatternFor(i), ws) == Ok(i) { ReadIsMeant(ws, i); }
      case Remove(_, _) => RemoveMeans(ws, i);
      case Update(_, _, _) => UpdateMeans(ws, i);
      case List(_) => ListMeans(ws, i);
      case Get(_, _) => GetMeans(ws, i);
    }
  }

  /** The parser understands an intent exactly when the words mean it: each listed word, in either language and any
      case, in each listed place, and nothing else. */
  lemma {:induction false} ParseIff(utterance: string, i: Intent)
    ensures Parse(utterance) == Ok(i) <==> exists ws :: L.Splits(utterance, ws) && Means(ws, i)
  {
    var ws := Words(utterance);
    forall x ensures L.Splits(utterance, x) <==> x == ws { L.WordsIff(utterance, x); }
    MeansIff(ws, i);
    if Matches(PatternFor(i), ws) { ParsesBy(PatternFor(i), ws); }
    if p: Pattern :| Matches(p, ws) {
      ParsesBy(p, ws);
      if Read(p, ws).Ok? { ReadForm(p, ws); }
    }
  }

  lemma {:induction false} ReadForm(p: Pattern, ws: seq<string>)
    requires Matches(p, ws) && Read(p, ws).Ok?
    ensures PatternFor(Read(p, ws).value) == p
  {
  }

  /** An update by its first words. */
  ghost predicate UpdateSaid(ws: seq<string>) {
    && |ws| > 5
    && exists n, g :: HeadSaid(ws, ["update", "patch", "обнови", "обновить"], n, ["on", "in", "на", "в"], g)
  }

  lemma {:induction false} UpdateMatches(ws: seq<string>)
    ensures Matches(UpdatePattern, ws) <==> UpdateSaid(ws)
  {
    var verbs, preps := ["update", "patch", "обнови", "обновить"], ["on", "in", "на", "в"];
    if |ws| > 5 {
      UpdateWords(Fold(ws[0]), Fold(ws[3]));
      forall n, g ensures HeadSaid(ws, verbs, n, preps, g)
                     <==> Named(ws) && Fold(ws[0]) in verbs && Fold(ws[3]) in preps && ws[2] == n && RefOf(ws[4]) == g
      {
        HeadIff(ws, verbs, n, preps, g);
      }
      if Matches(UpdatePattern, ws) { assert HeadSaid(ws, verbs, ws[2], preps, RefOf(ws[4])); }
    }
  }

  /** Why an utterance is refused: it has no words, it is an update whose text says no fields, or it means nothing. */
  lemma {:induction false} RefusedWith(utterance: string, ws: seq<string>)
    requires L.Splits(utterance, ws)
    ensures Parse(utterance) == Err(EmptyText) <==> ws == []
    ensures Parse(utterance) == Err(BadFields)
       <==> UpdateSaid(ws) && forall fields :: !F.FieldsSaid(UpdateText(ws), fields)
  {
    L.WordsIff(utterance, ws);
    UpdateMatches(ws);
    if Matches(UpdatePattern, ws) {
      ParsesBy(UpdatePattern, ws);
      UpdateTextIs(ws);
      forall fields ensures FieldsOf(UpdateText(ws)) == Some(fields) <==> F.FieldsSaid(UpdateText(ws), fields) {
        F.FieldsIff(UpdateText(ws), fields);
      }
    }
  }
}
