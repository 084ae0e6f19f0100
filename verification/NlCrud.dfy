/** The command parser `NlCrud.parse` (`nl_crud.py`): six patterns in Russian and English over the words of
    an utterance, tried in a fixed order. */
module NlCrud {
  import opened Common
  import opened NlText
  import opened NlFields
  import opened NlQuotes
  import opened Search

  datatype Source = RemoteHttp(url: string) | ContainerImage(image: string) | VmcpProxy(peer: GatewayKey)
  datatype Added = Added(source: Source, forwardIdentity: Option<bool>, description: Option<string>)

  datatype Intent =
    | Add(gateway: GatewayKey, name: string, added: Added)
    | Remove(gateway: GatewayKey, name: string)
    | Update(gateway: GatewayKey, name: string, fields: Fields)
    | List(gateway: GatewayKey)
    | Get(gateway: GatewayKey, name: string)

  datatype Fault = EmptyText | Unrecognized | BadFields

  type Outcome = Result<Intent, Fault>

  // ---------------------------------------------------------------- words of the grammar

  predicate CreateVerb(f: string) {
    f == "add" || f == "create" || f == "добавь" || f == "добавить" || f == "создай" || f == "создать"
  }

  predicate AttachVerb(f: string) {
    CreateVerb(f) || f == "attach" || f == "подключи" || f == "подключить"
  }

  predicate RemoveVerb(f: string) {
    f == "remove" || f == "delete" || f == "удали" || f == "удалить"
  }

  predicate UpdateVerb(f: string) {
    f == "update" || f == "patch" || f == "обнови" || f == "обновить"
  }

  predicate ListVerb(f: string) {
    f == "list" || f == "show" || f == "список" || f == "покажи" || f == "перечисли"
  }

  predicate GetVerb(f: string) {
    f == "get" || f == "show" || f == "покажи"
  }

  predicate CreatePrep(f: string) {
    f == "to" || f == "on" || f == "в" || f == "на"
  }

  predicate AttachPrep(f: string) {
    CreatePrep(f) || f == "in" || f == "к"
  }

  predicate RemovePrep(f: string) {
    f == "from" || f == "on" || f == "из"
  }

  predicate AtPrep(f: string) {
    f == "on" || f == "in" || f == "на" || f == "в"
  }

  predicate ListPrep(f: string) {
    AtPrep(f) || f == "for" || f == "для"
  }

  predicate DescriptionWord(f: string) {
    f == "desc" || f == "description" || f == "описание"
  }

  predicate IsName(w: string) {
    w != "" && forall i | 0 <= i < |w| :: IsWordChar(w[i]) || w[i] == '-'
  }

  predicate IsDotted(w: string) {
    w != "" && forall i | 0 <= i < |w| :: IsWordChar(w[i]) || w[i] == '-' || w[i] == '.'
  }

  /** `namespace/name`. */
  predicate IsRef(w: string) {
    var i := IndexOf(w, '/');
    i < |w| && IsDotted(w[..i]) && IsDotted(w[i + 1..])
  }

  /** `_gateway`, and `peer.split("/", 1)`; None when it raises. */
  function GatewayOf(raw: string): Option<GatewayKey> {
    var i := IndexOf(raw, '/');
    if i == |raw| || i == 0 || i == |raw| - 1 then None else Some(GatewayKey(raw[..i], raw[i + 1..]))
  }

  /** A matched reference is never refused. */
  function RefOf(w: string): (g: GatewayKey)
    requires IsRef(w)
    ensures GatewayOf(w) == Some(g)
  {
    var i := IndexOf(w, '/');
    GatewayKey(w[..i], w[i + 1..])
  }

  // ---------------------------------------------------------------- parts of an add

  /** What may follow `forward identity`: nothing, or an explicit value. */
  function FlagValue(f: string): Option<Option<bool>> {
    if f == "" then Some(None)
    else if f == "=true" || f == "=да" then Some(Some(true))
    else if f == "=false" || f == "=нет" then Some(Some(false))
    else None
  }

  /** The flag phrase as one word or two: how many words it takes, and its explicit value. */
  function FlagAt(ws: seq<string>): (r: (nat, Option<bool>))
    ensures r.0 <= |ws|
  {
    if ws == [] then (0, None)
    else
      var f := Fold(ws[0]);
      if f == "forward" then
        if |ws| > 1 && StartsWith(Fold(ws[1]), "identity") && FlagValue(Fold(ws[1])[8..]).Some?
        then (2, FlagValue(Fold(ws[1])[8..]).value) else (0, None)
      else if StartsWith(f, "forward_identity") then
        if FlagValue(f[16..]).Some? then (1, FlagValue(f[16..]).value) else (0, None)
      else if StartsWith(f, "forwardidentity") then
        if FlagValue(f[15..]).Some? then (1, FlagValue(f[15..]).value) else (0, None)
      else (0, None)
  }

  function DescriptionAt(ws: seq<string>): Option<Option<string>> {
    if ws == [] then Some(None)
    else if DescriptionWord(Fold(ws[0])) && |ws| > 1 then Some(Some(Join(ws[1..])))
    else None
  }

  datatype Tail = Tail(flag: Option<bool>, description: Option<string>)

  /** The two optional parts that end both add patterns. */
  function TailOf(ws: seq<string>): Option<Tail> {
    var (n, flag) := FlagAt(ws);
    match DescriptionAt(ws[n..])
    case None => None
    case Some(d) => Some(Tail(flag, d))
  }

  /** `(via )?vmcp-proxy namespace/name`, and how many words it takes. */
  function ProxyAt(ws: seq<string>): (r: Option<(Source, nat)>)
    ensures r.Some? ==> 2 <= r.value.1 <= |ws|
  {
    var k := if ws != [] && (Fold(ws[0]) == "via" || Fold(ws[0]) == "через") then 1 else 0;
    if k + 1 < |ws| && Fold(ws[k]) == "vmcp-proxy" && IsRef(ws[k + 1])
    then Some((VmcpProxy(RefOf(ws[k + 1])), k + 2)) else None
  }

  function DirectAt(ws: seq<string>): (r: Option<(Source, nat)>)
    ensures r.Some? ==> 2 <= r.value.1 <= |ws|
  {
    if |ws| < 2 then None
    else if Fold(ws[0]) == "url" then Some((RemoteHttp(ws[1]), 2))
    else if Fold(ws[0]) == "с" then
      if |ws| > 2 && Fold(ws[1]) == "url" then Some((RemoteHttp(ws[2]), 3)) else None
    else if Fold(ws[0]) == "image" || Fold(ws[0]) == "образ" then Some((ContainerImage(ws[1]), 2))
    else None
  }

  // ---------------------------------------------------------------- the six patterns

  datatype Pattern = AddProxyPattern | AddPattern | RemovePattern | UpdatePattern | ListPattern | GetPattern

  /** `mcp NAME prep GATEWAY` after the verb. */
  predicate Named(ws: seq<string>) {
    |ws| >= 5 && Fold(ws[1]) == "mcp" && IsName(ws[2]) && IsRef(ws[4])
  }

  /** A source and then a well-formed tail. */
  predicate Ends(source: Option<(Source, nat)>, ws: seq<string>)
    requires source.Some? ==> source.value.1 <= |ws|
  {
    source.Some? && TailOf(ws[source.value.1..]).Some?
  }

  predicate Matches(p: Pattern, ws: seq<string>) {
    match p
    case AddProxyPattern =>
      Named(ws) && AttachVerb(Fold(ws[0])) && AttachPrep(Fold(ws[3])) && Ends(ProxyAt(ws[5..]), ws[5..])
    case AddPattern =>
      Named(ws) && CreateVerb(Fold(ws[0])) && CreatePrep(Fold(ws[3])) && Ends(DirectAt(ws[5..]), ws[5..])
    case RemovePattern => Named(ws) && |ws| == 5 && RemoveVerb(Fold(ws[0])) && RemovePrep(Fold(ws[3]))
    case UpdatePattern => Named(ws) && |ws| > 5 && UpdateVerb(Fold(ws[0])) && AtPrep(Fold(ws[3]))
    case ListPattern =>
      |ws| == 4 && ListVerb(Fold(ws[0])) && (Fold(ws[1]) == "mcp" || Fold(ws[1]) == "mcps")
      && ListPrep(Fold(ws[2])) && IsRef(ws[3])
    case GetPattern => Named(ws) && |ws| == 5 && GetVerb(Fold(ws[0])) && AtPrep(Fold(ws[3]))
  }

  /** `forwardIdentity` as stored: the explicit value, or true when the text holds both words anywhere. */
  function FlagOf(explicit: Option<bool>, text: string): Option<bool> {
    if explicit.Some? then explicit
    else if Contains(Fold(text), "forward") && Contains(Fold(text), "identity") then Some(true)
    else None
  }

  function ReadAdd(source: Option<(Source, nat)>, ws: seq<string>): Intent
    requires Named(ws) && (source.Some? ==> source.value.1 <= |ws| - 5) && Ends(source, ws[5..])
  {
    var tail := TailOf(ws[5..][source.value.1..]).value;
    Add(RefOf(ws[4]), ws[2], Added(source.value.0, FlagOf(tail.flag, Join(ws)), tail.description))
  }

  /** The text after an optional `set`. */
  function Blob(ws: seq<string>): string {
    if |ws| > 1 && Fold(ws[0]) == "set" then Join(ws[1..]) else Join(ws)
  }

  function Read(p: Pattern, ws: seq<string>): Outcome
    requires Matches(p, ws)
  {
    match p
    case AddProxyPattern => Ok(ReadAdd(ProxyAt(ws[5..]), ws))
    case AddPattern => Ok(ReadAdd(DirectAt(ws[5..]), ws))
    case RemovePattern => Ok(Remove(RefOf(ws[4]), ws[2]))
    case UpdatePattern =>
      (match FieldsOf(Blob(ws[5..]))
       case None => Err(BadFields)
       case Some(fields) => Ok(Update(RefOf(ws[4]), ws[2], fields)))
    case ListPattern => Ok(List(RefOf(ws[3])))
    case GetPattern => Ok(Get(RefOf(ws[4]), ws[2]))
  }

  function ParseWords(ws: seq<string>): Outcome {
    if ws == [] then Err(EmptyText)
    else if Matches(AddProxyPattern, ws) then Read(AddProxyPattern, ws)
    else if Matches(AddPattern, ws) then Read(AddPattern, ws)
    else if Matches(RemovePattern, ws) then Read(RemovePattern, ws)
    else if Matches(UpdatePattern, ws) then Read(UpdatePattern, ws)
    else if Matches(ListPattern, ws) then Read(ListPattern, ws)
    else if Matches(GetPattern, ws) then Read(GetPattern, ws)
    else Err(Unrecognized)
  }

  /** `parse`. */
  function Parse(utterance: string): Outcome { ParseWords(Words(utterance)) }

  // ---------------------------------------------------------------- at most one pattern

  lemma {:induction false} SourcesDiffer(ws: seq<string>)
    ensures ProxyAt(ws).None? || DirectAt(ws).None?
  {
  }

  lemma {:induction false} VerbsDiffer(f: string)
    ensures !(AttachVerb(f) && UpdateVerb(f))
    ensures !(RemoveVerb(f) && GetVerb(f))
  {
  }

  /** No text matches two of the six patterns. */
  lemma {:induction false} AtMostOnePattern(p: Pattern, q: Pattern, ws: seq<string>)
    requires Matches(p, ws) && Matches(q, ws)
    ensures p == q
  {
    VerbsDiffer(Fold(ws[0]));
    if |ws| >= 5 {
      SourcesDiffer(ws[5..]);
    }
  }

  /** Tries the patterns in the given order. */
  function TryInOrder(order: seq<Pattern>, ws: seq<string>): Outcome
    decreases |order|
  {
    if order == [] then Err(Unrecognized)
    else if Matches(order[0], ws) then Read(order[0], ws)
    else TryInOrder(order[1..], ws)
  }

  lemma {:induction false} TryFinds(order: seq<Pattern>, p: Pattern, ws: seq<string>)
    requires Matches(p, ws) && p in order
    ensures TryInOrder(order, ws) == Read(p, ws)
    decreases |order|
  {
    if Matches(order[0], ws) {
      AtMostOnePattern(order[0], p, ws);
    } else {
      assert order == [order[0]] + order[1..];
      TryFinds(order[1..], p, ws);
    }
  }

  lemma {:induction false} TryFails(order: seq<Pattern>, ws: seq<string>)
    requires forall p: Pattern :: !Matches(p, ws)
    ensures TryInOrder(order, ws) == Err(Unrecognized)
    decreases |order|
  {
    if order != [] {
      TryFails(order[1..], ws);
    }
  }

  /** The pattern that matches is the one that is read. */
  lemma {:induction false} ParsesBy(p: Pattern, ws: seq<string>)
    requires Matches(p, ws)
    ensures ParseWords(ws) == Read(p, ws)
  {
    forall q: Pattern | q != p ensures !Matches(q, ws) {
      if Matches(q, ws) { AtMostOnePattern(p, q, ws); }
    }
  }

  /** The order in which the patterns are tried does not matter. */
  lemma {:induction false} OrderDoesNotMatter(order: seq<Pattern>, utterance: string)
    requires Words(utterance) != [] && forall p: Pattern :: p in order
    ensures TryInOrder(order, Words(utterance)) == Parse(utterance)
  {
    var ws := Words(utterance);
    if p: Pattern :| Matches(p, ws) {
      ParsesBy(p, ws);
      TryFinds(order, p, ws);
    } else {
      TryFails(order, ws);
    }
  }

  /** Only the words count: extra white space never changes an intent. */
  lemma {:induction false} WhiteSpaceIsIgnored(utterance: string)
    ensures Parse(Join(Words(utterance))) == Parse(utterance)
  {
    WordsOfJoin(Words(utterance));
  }

  // ---------------------------------------------------------------- the implicit flag

  lemma {:induction false} PrefixContained(s: string, p: string, n: nat, q: string)
    requires StartsWith(s, p) && n + |q| <= |p| && p[n..n + |q|] == q
    ensures Contains(s, q)
  {
    assert s[n..n + |q|] == p[n..n + |q|];
    assert StartsAt(s, q, n);
  }

  lemma {:induction false} OneWordMentions(ws: seq<string>, k: nat, p: string, n: nat, q: string)
    requires k < |ws| && StartsWith(Fold(ws[k]), p) && n + |q| <= |p| && p[n..n + |q|] == q
    ensures Mentions(ws, q)
  {
    PrefixContained(Fold(ws[k]), p, n, q);
  }

  /** A flag phrase spells both words. */
  lemma {:induction false} FlagMentions(ws: seq<string>)
    requires FlagAt(ws).0 > 0
    ensures Mentions(ws, "forward") && Mentions(ws, "identity")
  {
    var f := Fold(ws[0]);
    assert "forward_identity"[0..7] == "forward" && "forward_identity"[8..16] == "identity";
    assert "forwardidentity"[0..7] == "forward" && "forwardidentity"[7..15] == "identity";
    if f == "forward" {
      OneWordMentions(ws, 0, "forward", 0, "forward");
      OneWordMentions(ws, 1, "identity", 0, "identity");
    } else if StartsWith(f, "forward_identity") {
      OneWordMentions(ws, 0, "forward_identity", 0, "forward");
      OneWordMentions(ws, 0, "forward_identity", 8, "identity");
    } else {
      OneWordMentions(ws, 0, "forwardidentity", 0, "forward");
      OneWordMentions(ws, 0, "forwardidentity", 7, "identity");
    }
  }

  predicate NamesFlag(ws: seq<string>) {
    Mentions(ws, "forward") && Mentions(ws, "identity")
  }

  lemma {:induction false} FlagOfWords(explicit: Option<bool>, ws: seq<string>)
    ensures FlagOf(explicit, Join(ws)) ==
        if explicit.Some? then explicit else if NamesFlag(ws) then Some(true) else None
  {
    JoinMentions(ws, "forward");
    JoinMentions(ws, "identity");
  }

  lemma {:induction false} TailMentions(ws: seq<string>)
    requires TailOf(ws).Some? && TailOf(ws).value.flag.Some?
    ensures NamesFlag(ws)
  {
    FlagMentions(ws);
  }

  lemma {:induction false} ReadAddFlag(source: Option<(Source, nat)>, ws: seq<string>)
    requires Named(ws) && (source.Some? ==> source.value.1 <= |ws| - 5) && Ends(source, ws[5..])
    ensures ReadAdd(source, ws).added.forwardIdentity.Some? <==> NamesFlag(ws)
  {
    var rest := ws[5..][source.value.1..];
    var flag := TailOf(rest).value.flag;
    FlagOfWords(flag, ws);
    if flag.Some? {
      TailMentions(rest);
      var head := ws[..5 + source.value.1];
      assert ws == head + rest;
      MentionsSplit(head, rest, "forward");
      MentionsSplit(head, rest, "identity");
    }
  }

  /** An add stores `forwardIdentity` exactly when the utterance holds both words somewhere: in a flag phrase,
      but just as well in the MCP's name, its URL or its description. */
  lemma {:induction false} FlagStoredIffMentioned(utterance: string)
    requires Parse(utterance).Ok? && Parse(utterance).value.Add?
    ensures Parse(utterance).value.added.forwardIdentity.Some? <==> NamesFlag(Words(utterance))
  {
    var ws := Words(utterance);
    if Matches(AddProxyPattern, ws) {
      ReadAddFlag(ProxyAt(ws[5..]), ws);
    } else if Matches(AddPattern, ws) {
      ReadAddFlag(DirectAt(ws[5..]), ws);
    }
  }

  // ---------------------------------------------------------------- printing

  function Ref(g: GatewayKey): string { g.namespace + "/" + g.name }

  function SourceWords(s: Source): seq<string> {
    match s
    case RemoteHttp(url) => ["url", url]
    case ContainerImage(image) => ["image", image]
    case VmcpProxy(peer) => ["via", "vmcp-proxy", Ref(peer)]
  }

  function FlagWords(flag: Option<bool>): seq<string> {
    if flag.None? then [] else if flag.value then ["forwardIdentity=true"] else ["forwardIdentity=false"]
  }

  function DescriptionWords(d: Option<string>): seq<string> {
    if d.None? then [] else ["description"] + Words(d.value)
  }

  /** The canonical wording of an intent. */
  function PrintWords(i: Intent): seq<string> {
    match i
    case Add(g, n, a) =>
      ["add", "mcp", n, "to", Ref(g)] +
          (SourceWords(a.source) + (FlagWords(a.forwardIdentity) + DescriptionWords(a.description)))
    case Remove(g, n) => ["remove", "mcp", n, "from", Ref(g)]
    case Update(g, n, fields) =>
      ["update", "mcp", n, "on", Ref(g)] + (["set"] + Words(PrintPairs(KeysOf(fields), fields)))
    case List(g) => ["list", "mcp", "on", Ref(g)]
    case Get(g, n) => ["get", "mcp", n, "on", Ref(g)]
  }

  function Pick(ks: seq<Key>, fields: Fields): (r: seq<Key>)
    ensures forall k :: k in r <==> k in ks && k in fields
  {
    if ks == [] then []
    else
      assert ks == [ks[0]] + ks[1..];
      (if ks[0] in fields then [ks[0]] else []) + Pick(ks[1..], fields)
  }

  const ALL_KEYS: seq<Key> := [ForwardIdentity, Enabled, Description, Image, Url]

  lemma {:induction false} AllKeysListed()
    ensures forall k: Key :: k in ALL_KEYS
  {
    forall k: Key ensures k in ALL_KEYS {
      match k
      case ForwardIdentity => assert ALL_KEYS[0] == k;
      case Enabled => assert ALL_KEYS[1] == k;
      case Description => assert ALL_KEYS[2] == k;
      case Image => assert ALL_KEYS[3] == k;
      case Url => assert ALL_KEYS[4] == k;
    }
  }

  /** The fields of an update in their canonical order: flags first, then longer keys before shorter ones. */
  function KeysOf(fields: Fields): (ks: seq<Key>)
    ensures forall k :: k in ks <==> k in fields
  {
    AllKeysListed();
    Pick(ALL_KEYS, fields)
  }

  function Print(i: Intent): string { Join(PrintWords(i)) }

  // ---------------------------------------------------------------- what an utterance can say

  predicate IsGateway(g: GatewayKey) {
    IsDotted(g.namespace) && IsDotted(g.name)
  }

  predicate SourceFits(s: Source) {
    match s
    case RemoteHttp(url) => IsToken(url)
    case ContainerImage(image) => IsToken(image)
    case VmcpProxy(peer) => IsGateway(peer)
  }

  /** Text that normalising white space leaves alone. */
  predicate Normal(s: string) {
    s != "" && Join(Words(s)) == s
  }

  /** White space only as single blanks. */
  predicate Spaced(s: string) {
    forall i | 0 <= i < |s| && IsSpace(s[i]) :: s[i] == ' ' && (i + 1 < |s| ==> !IsSpace(s[i + 1]))
  }

  predicate FieldsSpaced(fields: Fields) {
    forall k | k in fields && fields[k].Text? :: Spaced(fields[k].s)
  }

  predicate Sayable(i: Intent) {
    IsGateway(i.gateway)
    && (!i.List? ==> IsName(i.name))
    && match i
       case Add(_, _, a) => SourceFits(a.source) && (a.description.Some? ==> Normal(a.description.value))
       case Update(_, _, fields) => fields != map[] && Printable(fields) && FieldsSpaced(fields)
       case _ => true
  }

  // ---------------------------------------------------------------- round trip

  lemma {:induction false} RefIsRef(g: GatewayKey)
    requires IsGateway(g)
    ensures IsRef(Ref(g)) && RefOf(Ref(g)) == g
  {
    var w := Ref(g);
    assert forall i | 0 <= i < |g.namespace| :: w[i] == g.namespace[i];
    assert w[|g.namespace|] == '/';
    assert IndexOf(w, '/') == |g.namespace|;
    assert w[..|g.namespace|] == g.namespace && w[|g.namespace| + 1..] == g.name;
  }

  lemma {:induction false} DirectPrinted(s: Source, rest: seq<string>)
    requires !s.VmcpProxy?
    ensures DirectAt(SourceWords(s) + rest) == Some((s, 2))
    ensures (SourceWords(s) + rest)[2..] == rest
  {
    assert Fold("url") == "url" && Fold("image") == "image";
  }

  lemma {:induction false} ProxyPrinted(s: Source, rest: seq<string>)
    requires s.VmcpProxy? && IsGateway(s.peer)
    ensures ProxyAt(SourceWords(s) + rest) == Some((s, 3))
    ensures (SourceWords(s) + rest)[3..] == rest
  {
    RefIsRef(s.peer);
    assert Fold("via") == "via" && Fold("vmcp-proxy") == "vmcp-proxy";
  }

  /** The printed flag word, lower case. */
  lemma {:induction false} FlagWordRead(w: string, v: string, rest: seq<string>)
    requires Fold(w) == "forwardidentity" + v && FlagValue(v).Some?
    ensures FlagAt([w] + rest) == (1, FlagValue(v).value)
  {
    var f := Fold(w);
    assert f[7] == 'i' && f[..15] == "forwardidentity" && f[15..] == v;
    assert |f| > 15 ==> f[..16][7] == 'i';
  }

  lemma {:induction false} FlagPrinted(flag: Option<bool>, rest: seq<string>)
    requires rest == [] || rest[0] == "description"
    ensures FlagAt(FlagWords(flag) + rest) == (|FlagWords(flag)|, flag)
  {
    if flag == Some(true) {
      assert Fold("forwardIdentity=true") == "forwardidentity" + "=true";
      FlagWordRead("forwardIdentity=true", "=true", rest);
    } else if flag == Some(false) {
      assert Fold("forwardIdentity=false") == "forwardidentity" + "=false";
      FlagWordRead("forwardIdentity=false", "=false", rest);
    } else {
      assert FlagWords(flag) + rest == rest;
      assert Fold("description") == "description";
    }
  }

  lemma {:induction false} DescriptionPrinted(d: Option<string>)
    requires d.Some? ==> Normal(d.value)
    ensures DescriptionAt(DescriptionWords(d)) == Some(d)
  {
    assert Fold("description") == "description";
    if d.Some? {
      assert Words(d.value) != [];
      assert DescriptionWords(d)[1..] == Words(d.value);
    }
  }

  lemma {:induction false} TailPrinted(flag: Option<bool>, d: Option<string>)
    requires d.Some? ==> Normal(d.value)
    ensures TailOf(FlagWords(flag) + DescriptionWords(d)) == Some(Tail(flag, d))
  {
    FlagPrinted(flag, DescriptionWords(d));
    DescriptionPrinted(d);
    assert (FlagWords(flag) + DescriptionWords(d))[|FlagWords(flag)|..] == DescriptionWords(d);
  }

  lemma {:induction false} AddPrinted(i: Intent)
    requires Sayable(i) && i.Add?
    ensures var ws := PrintWords(i);
            && Named(ws) && RefOf(ws[4]) == i.gateway && ws[2] == i.name
            && Fold(ws[0]) == "add" && Fold(ws[3]) == "to"
            && ws[5..] == SourceWords(i.added.source) +
                (FlagWords(i.added.forwardIdentity) + DescriptionWords(i.added.description))
  {
    RefIsRef(i.gateway);
    assert Fold("add") == "add" && Fold("mcp") == "mcp" && Fold("to") == "to";
  }

  /** The flag an add says in words, or by mentioning both words. */
  function Spoken(i: Intent): Intent
    requires i.Add?
  {
    i.(added := i.added.(forwardIdentity :=
      if i.added.forwardIdentity.Some? then i.added.forwardIdentity
      else if NamesFlag(PrintWords(i)) then Some(true) else None))
  }

  lemma {:induction false} AddRead(i: Intent)
    requires Sayable(i) && i.Add?
    ensures ParseWords(PrintWords(i)) == Ok(Spoken(i))
  {
    var ws, a := PrintWords(i), i.added;
    var tail := FlagWords(a.forwardIdentity) + DescriptionWords(a.description);
    AddPrinted(i);
    TailPrinted(a.forwardIdentity, a.description);
    FlagOfWords(a.forwardIdentity, ws);
    if a.source.VmcpProxy? {
      ProxyPrinted(a.source, tail);
      ParsesBy(AddProxyPattern, ws);
    } else {
      DirectPrinted(a.source, tail);
      ParsesBy(AddPattern, ws);
    }
  }

  lemma {:induction false} ShortRead(i: Intent)
    requires Sayable(i) && (i.Remove? || i.Get? || i.List?)
    ensures ParseWords(PrintWords(i)) == Ok(i)
  {
    RefIsRef(i.gateway);
    assert Fold("mcp") == "mcp" && Fold("on") == "on" && Fold("from") == "from";
    assert Fold("remove") == "remove" && Fold("get") == "get" && Fold("list") == "list";
    ParsesBy(if i.Remove? then RemovePattern else if i.Get? then GetPattern else ListPattern, PrintWords(i));
  }

  // -- updates: the printed pairs survive splitting and joining

  lemma {:induction false} SpacedAcross(a: string, b: string)
    requires Spaced(a) && Spaced(b) && (a == "" || b == "" || !IsSpace(a[|a| - 1]) || !IsSpace(b[0]))
    ensures Spaced(a + b)
  {
  }

  /** Spaced, and no blank at either end. */
  predicate Trimmed(s: string) {
    Spaced(s) && s != "" && !IsSpace(s[0]) && !IsSpace(s[|s| - 1])
  }

  lemma {:induction false} QuotedTrimmed(q: char, v: string)
    requires (q == '"' || q == '\'') && Spaced(v)
    ensures Trimmed([q] + v + [q])
  {
    SpacedAcross([q], v);
    SpacedAcross([q] + v, [q]);
  }

  lemma {:induction false} ValueTrimmed(k: Key, v: Value)
    requires v.Text? ==> Spaced(v.s)
    ensures Trimmed(PrintValue(v))
  {
    if v.Text? {
      QuotedTrimmed(if '"' !in v.s then '"' else '\'', v.s);
    }
  }

  lemma {:induction false} TrimmedAcross(a: string, b: string)
    requires Trimmed(a) && Trimmed(b)
    ensures Trimmed(a + b)
  {
    SpacedAcross(a, b);
  }

  lemma {:induction false} SolidTrimmed(s: string)
    requires IsToken(s)
    ensures Trimmed(s)
  {
  }

  lemma {:induction false} NameIsToken(k: Key)
    ensures IsToken(Name(k))
  {
  }

  lemma {:induction false} PairSpaced(k: Key, v: Value)
    requires v.Text? ==> Spaced(v.s)
    ensures Trimmed(PrintPair(k, v))
  {
    ValueTrimmed(k, v);
    NameIsToken(k);
    SolidTrimmed(Name(k));
    SolidTrimmed("=");
    TrimmedAcross(Name(k), "=");
    TrimmedAcross(Name(k) + "=", PrintValue(v));
  }

  /** A leading blank before text without blanks at its ends. */
  predicate Indented(s: string) {
    |s| > 1 && s[0] == ' ' && Trimmed(s[1..])
  }

  lemma {:induction false} IndentedAcross(pair: string, rest: string)
    requires Trimmed(pair) && (rest == "" || Indented(rest))
    ensures Indented(" " + pair + rest)
  {
    var s := " " + pair + rest;
    if rest == "" {
      assert s[1..] == pair;
    } else {
      assert rest == " " + rest[1..];
      assert s[1..] == pair + " " + rest[1..];
      assert Spaced(" ");
      SpacedAcross(pair, " ");
      SpacedAcross(pair + " ", rest[1..]);
    }
  }

  lemma {:induction false} PairsIndented(ks: seq<Key>, fields: Fields)
    requires FieldsSpaced(fields) && forall k | k in ks :: k in fields
    ensures PrintPairs(ks, fields) == "" || Indented(PrintPairs(ks, fields))
    ensures ks != [] ==> PrintPairs(ks, fields) != ""
    decreases |ks|
  {
    if ks != [] {
      assert ks[0] in fields;
      PairSpaced(ks[0], fields[ks[0]]);
      PairsIndented(ks[1..], fields);
      IndentedAcross(PrintPair(ks[0], fields[ks[0]]), PrintPairs(ks[1..], fields));
    }
  }

  /** What splitting and joining leave of indented text. */
  lemma {:induction false} LeadingBlank(s: string)
    requires Indented(s)
    ensures Words(s) != [] && Join(Words(s)) == s[1..]
  {
    var t := s[1..];
    assert Tidy(t);
    JoinOfWords(t);
    NotNoWords(t);
    BlankFirst(t);
    assert s == " " + t;
  }

  lemma {:induction false} BlobAfterSet(ws: seq<string>)
    requires ws != []
    ensures Blob(["set"] + ws) == Join(ws)
  {
    assert (["set"] + ws)[1..] == ws;
    assert Fold("set") == "set";
  }

  /** The blob of the printed update reads like the printed pairs. */
  lemma {:induction false} BlobPrinted(fields: Fields)
    requires fields != map[] && FieldsSpaced(fields)
    ensures var pairs := PrintPairs(KeysOf(fields), fields);
            Words(pairs) != [] && FieldsOf(Blob(["set"] + Words(pairs))) == FieldsOf(pairs)
  {
    var ks := KeysOf(fields);
    SomeKey(fields);
    PairsIndented(ks, fields);
    BlobOfIndented(PrintPairs(ks, fields));
  }

  lemma {:induction false} SomeKey(fields: Fields)
    requires fields != map[]
    ensures KeysOf(fields) != []
  {
    var k :| k in fields;
    assert k in KeysOf(fields);
  }

  lemma {:induction false} BlobOfIndented(s: string)
    requires Indented(s)
    ensures Words(s) != [] && FieldsOf(Blob(["set"] + Words(s))) == FieldsOf(s)
  {
    var ws, t := Words(s), s[1..];
    LeadingBlank(s);
    BlobAfterSet(ws);
    assert s == " " + t;
    FieldsOfBlank(t);
  }

  lemma {:induction false} FieldsOfBlank(s: string)
    ensures FieldsOf(" " + s) == FieldsOf(s)
  {
    BlankSkipped(s);
  }

  lemma {:induction false} UpdateMatches(g: GatewayKey, n: string, tail: seq<string>)
    requires IsGateway(g) && IsName(n) && tail != []
    ensures var ws := ["update", "mcp", n, "on", Ref(g)] + tail;
            Matches(UpdatePattern, ws) && ws[5..] == tail && RefOf(ws[4]) == g
  {
    RefIsRef(g);
    assert Fold("update") == "update" && Fold("mcp") == "mcp" && Fold("on") == "on";
  }

  /** A printed update is read as an update with whatever fields its pairs are read as. */
  lemma {:induction false} UpdateRead(i: Intent)
    requires i.Update? && IsGateway(i.gateway) && IsName(i.name) && i.fields != map[] && FieldsSpaced(i.fields)
    ensures var fields := FieldsOf(PrintPairs(KeysOf(i.fields), i.fields));
            && (fields.Some? ==> ParseWords(PrintWords(i)) == Ok(i.(fields := fields.value)))
            && (fields.None? ==> ParseWords(PrintWords(i)).Err?)
  {
    var tail := ["set"] + Words(PrintPairs(KeysOf(i.fields), i.fields));
    BlobPrinted(i.fields);
    UpdateMatches(i.gateway, i.name, tail);
    ParsesBy(UpdatePattern, PrintWords(i));
  }

  // -- the printed text

  lemma {:induction false} RefIsToken(g: GatewayKey)
    requires IsGateway(g)
    ensures IsToken(Ref(g))
  {
  }

  lemma {:induction false} TokensAppend(a: seq<string>, b: seq<string>)
    requires AreTokens(a) && AreTokens(b)
    ensures AreTokens(a + b)
  {
  }

  lemma {:induction false} AddedTokens(a: Added)
    requires SourceFits(a.source)
    ensures AreTokens(SourceWords(a.source))
    ensures AreTokens(FlagWords(a.forwardIdentity))
    ensures AreTokens(DescriptionWords(a.description))
  {
    if a.source.VmcpProxy? {
      RefIsToken(a.source.peer);
    }
    if a.description.Some? {
      TokensAppend(["description"], Words(a.description.value));
    }
  }

  lemma {:induction false} HeadTokens(verb: string, n: string, prep: string, g: GatewayKey)
    requires IsToken(verb) && IsName(n) && IsToken(prep) && IsGateway(g)
    ensures AreTokens([verb, "mcp", n, prep, Ref(g)])
  {
    RefIsToken(g);
  }

  lemma {:induction false} AddTokens(i: Intent)
    requires Sayable(i) && i.Add?
    ensures AreTokens(PrintWords(i))
  {
    var a := i.added;
    var tail := FlagWords(a.forwardIdentity) + DescriptionWords(a.description);
    AddedTokens(a);
    TokensAppend(FlagWords(a.forwardIdentity), DescriptionWords(a.description));
    TokensAppend(SourceWords(a.source), tail);
    HeadedTokens("add", i.name, "to", i.gateway, SourceWords(a.source) + tail);
  }

  lemma {:induction false} HeadedTokens(verb: string, n: string, prep: string, g: GatewayKey, tail: seq<string>)
    requires IsToken(verb) && IsName(n) && IsToken(prep) && IsGateway(g) && AreTokens(tail)
    ensures AreTokens([verb, "mcp", n, prep, Ref(g)] + tail)
  {
    HeadTokens(verb, n, prep, g);
    TokensAppend([verb, "mcp", n, prep, Ref(g)], tail);
  }

  lemma {:induction false} SetTokens(ws: seq<string>)
    requires AreTokens(ws)
    ensures AreTokens(["set"] + ws)
  {
    assert IsToken("set");
    TokensAppend(["set"], ws);
  }

  lemma {:induction false} UpdateWordsAreTokens(n: string, g: GatewayKey, s: string)
    requires IsName(n) && IsGateway(g)
    ensures AreTokens(["update", "mcp", n, "on", Ref(g)] + (["set"] + Words(s)))
  {
    SetTokens(Words(s));
    HeadedTokens("update", n, "on", g, ["set"] + Words(s));
  }

  lemma {:induction false} UpdateTokens(i: Intent)
    requires i.Update? && IsGateway(i.gateway) && IsName(i.name)
    ensures AreTokens(PrintWords(i))
  {
    UpdateWordsAreTokens(i.name, i.gateway, PrintPairs(KeysOf(i.fields), i.fields));
  }

  lemma {:induction false} PrintedTokens(i: Intent)
    requires Sayable(i)
    ensures AreTokens(PrintWords(i))
  {
    if i.Add? {
      AddTokens(i);
    } else if i.Update? {
      UpdateTokens(i);
    } else if i.Remove? {
      HeadTokens("remove", i.name, "from", i.gateway);
    } else if i.Get? {
      HeadTokens("get", i.name, "on", i.gateway);
    } else {
      RefIsToken(i.gateway);
    }
  }

  /** Print, then parse: the same intent, for every intent the grammar can carry. An add without an explicit
      flag keeps it absent unless its words mention both halves of the flag. */
  lemma {:induction false} IntentRoundTrip(i: Intent)
    requires Sayable(i)
    ensures Parse(Print(i)) == Ok(if i.Add? then Spoken(i) else i)
    ensures !i.Add? || i.added.forwardIdentity.Some? ==> Parse(Print(i)) == Ok(i)
  {
    PrintedTokens(i);
    WordsOfJoin(PrintWords(i));
    match i
    case Add(_, _, _) => AddRead(i);
    case Update(_, _, fields) =>
      UpdateRead(i);
      FieldsRoundTrip(KeysOf(fields), fields);
    case _ => ShortRead(i);
  }

  // ---------------------------------------------------------------- everything parsed can be said again

  lemma {:induction false} JoinWordsNormal(ws: seq<string>)
    requires AreTokens(ws) && ws != []
    ensures Normal(Join(ws))
  {
    WordsOfJoin(ws);
    assert ws[0] != "";
  }

  lemma {:induction false} TokensAfter(ws: seq<string>, n: nat)
    requires AreTokens(ws) && n <= |ws|
    ensures AreTokens(ws[n..])
  {
  }

  lemma {:induction false} AddSayable(source: Option<(Source, nat)>, ws: seq<string>)
    requires Named(ws) && AreTokens(ws) && (source.Some? ==> source.value.1 <= |ws| - 5) && Ends(source, ws[5..])
    requires SourceFits(source.value.0)
    ensures Sayable(ReadAdd(source, ws))
  {
    var rest := ws[5..][source.value.1..];
    TokensAfter(ws, 5);
    TokensAfter(ws[5..], source.value.1);
    var n := FlagAt(rest).0;
    TokensAfter(rest, n);
    if TailOf(rest).value.description.Some? {
      TokensAfter(rest[n..], 1);
      JoinWordsNormal(rest[n..][1..]);
    }
  }

  lemma {:induction false} SourcesFit(ws: seq<string>)
    requires AreTokens(ws)
    ensures ProxyAt(ws).Some? ==> SourceFits(ProxyAt(ws).value.0)
    ensures DirectAt(ws).Some? ==> SourceFits(DirectAt(ws).value.0)
  {
  }

  /** An add that was understood is well formed, and its canonical wording is understood as the same add. */
  lemma {:induction false} ParsedAddSayable(utterance: string)
    requires Parse(utterance).Ok? && Parse(utterance).value.Add?
    ensures Sayable(Parse(utterance).value)
  {
    var ws := Words(utterance);
    assert |ws| >= 5;
    TokensAfter(ws, 5);
    SourcesFit(ws[5..]);
    if Matches(AddProxyPattern, ws) {
      AddSayable(ProxyAt(ws[5..]), ws);
    } else {
      AddSayable(DirectAt(ws[5..]), ws);
    }
  }

  lemma {:induction false} NeedsLetter(s: string, p: string, c: char)
    requires c in p && c !in s
    ensures !Contains(s, p)
  {
    var j :| 0 <= j < |p| && p[j] == c;
    forall i | 0 <= i <= |s| ensures !StartsAt(s, p, i) {
      if i + |p| <= |s| {
        assert s[i..i + |p|][j] == s[i + j];
      }
    }
  }

  predicate IsFixedWord(w: string) {
    w == "add" || w == "mcp" || w == "to" || w == "url" || w == "image"
    || w == "via" || w == "vmcp-proxy" || w == "description"
  }

  /** The words the printer adds mention neither half of the flag. */
  lemma {:induction false} FixedWordsMentionNothing(w: string)
    requires IsFixedWord(w)
    ensures !Contains(Fold(w), "forward") && !Contains(Fold(w), "identity")
  {
    assert Fold(w) == w;
    assert "forward"[3] == 'w' && "identity"[3] == 'n' && "identity"[7] == 'y';
    NeedsLetter(w, "forward", 'w');
    NeedsLetter(w, "identity", if w == "description" then 'y' else 'n');
  }

  /** Every printed word was said or is fixed. */
  ghost predicate SaidOrFixed(printed: seq<string>, ws: seq<string>) {
    forall i | 0 <= i < |printed| :: printed[i] in ws || IsFixedWord(printed[i])
  }

  lemma {:induction false} SaidAppend(a: seq<string>, b: seq<string>, ws: seq<string>)
    requires SaidOrFixed(a, ws) && SaidOrFixed(b, ws)
    ensures SaidOrFixed(a + b, ws)
  {
  }

  lemma {:induction false} SaidMentions(printed: seq<string>, ws: seq<string>, p: string)
    requires SaidOrFixed(printed, ws) && (p == "forward" || p == "identity") && Mentions(printed, p)
    ensures Mentions(ws, p)
  {
    var i :| 0 <= i < |printed| && Contains(Fold(printed[i]), p);
    if IsFixedWord(printed[i]) {
      FixedWordsMentionNothing(printed[i]);
    } else {
      var j :| 0 <= j < |ws| && ws[j] == printed[i];
    }
  }

  lemma {:induction false} DirectSaid(ws: seq<string>)
    requires DirectAt(ws).Some?
    ensures SaidOrFixed(SourceWords(DirectAt(ws).value.0), ws)
  {
  }

  lemma {:induction false} RefRestored(w: string)
    requires IsRef(w)
    ensures Ref(RefOf(w)) == w
  {
  }

  lemma {:induction false} ProxySaid(ws: seq<string>)
    requires ProxyAt(ws).Some?
    ensures SaidOrFixed(SourceWords(ProxyAt(ws).value.0), ws)
  {
    var k := ProxyAt(ws).value.1 - 1;
    RefRestored(ws[k]);
    assert SourceWords(ProxyAt(ws).value.0) == ["via", "vmcp-proxy", ws[k]];
  }

  lemma {:induction false} DescriptionSaid(ws: seq<string>)
    requires AreTokens(ws) && DescriptionAt(ws).Some?
    ensures SaidOrFixed(DescriptionWords(DescriptionAt(ws).value), ws)
  {
    if DescriptionAt(ws).value.Some? {
      TokensAfter(ws, 1);
      WordsOfJoin(ws[1..]);
      forall i | 0 <= i < |ws[1..]| ensures ws[1..][i] in ws {
        assert ws[1..][i] == ws[i + 1];
      }
    }
  }

  lemma {:induction false} SaidWider(printed: seq<string>, ws: seq<string>, n: nat)
    requires n <= |ws| && SaidOrFixed(printed, ws[n..])
    ensures SaidOrFixed(printed, ws)
  {
    forall i | 0 <= i < |printed| && printed[i] in ws[n..] ensures printed[i] in ws {
      var j :| 0 <= j < |ws[n..]| && ws[n..][j] == printed[i];
      assert ws[n + j] == printed[i];
    }
  }

  lemma {:induction false} TailSaid(ws: seq<string>)
    requires AreTokens(ws) && TailOf(ws).Some?
    ensures SaidOrFixed(DescriptionWords(TailOf(ws).value.description), ws)
  {
    var n := FlagAt(ws).0;
    TokensAfter(ws, n);
    DescriptionSaid(ws[n..]);
    SaidWider(DescriptionWords(TailOf(ws).value.description), ws, n);
  }

  /** Without a flag, the canonical wording of an add only repeats words that were said. */
  lemma {:induction false} AddSaid(source: Option<(Source, nat)>, ws: seq<string>)
    requires Named(ws) && AreTokens(ws) && (source.Some? ==> source.value.1 <= |ws| - 5) && Ends(source, ws[5..])
    requires SaidOrFixed(SourceWords(source.value.0), ws[5..])
    requires ReadAdd(source, ws).added.forwardIdentity.None?
    ensures SaidOrFixed(PrintWords(ReadAdd(source, ws)), ws)
  {
    var after := ws[5..];
    var rest := after[source.value.1..];
    TokensAfter(ws, 5);
    TokensAfter(after, source.value.1);
    var s, d := SourceWords(source.value.0), DescriptionWords(TailOf(rest).value.description);
    TailSaid(rest);
    SaidWider(d, after, source.value.1);
    SaidWider(d, ws, 5);
    SaidWider(s, ws, 5);
    SaidAppend(s, d, ws);
    RefRestored(ws[4]);
    SaidAppend(["add", "mcp", ws[2], "to", ws[4]], s + d, ws);
    assert [] + d == d;
  }

  lemma {:induction false} NoFlagNoMention(i: Intent, ws: seq<string>)
    requires i.Add? && i.added.forwardIdentity.None? && !NamesFlag(ws) && SaidOrFixed(PrintWords(i), ws)
    ensures Spoken(i) == i
  {
    if NamesFlag(PrintWords(i)) {
      SaidMentions(PrintWords(i), ws, "forward");
      SaidMentions(PrintWords(i), ws, "identity");
    }
  }

  lemma {:induction false} ParsedAddSpoken(utterance: string)
    requires Parse(utterance).Ok? && Parse(utterance).value.Add?
    ensures Spoken(Parse(utterance).value) == Parse(utterance).value
  {
    var ws, i := Words(utterance), Parse(utterance).value;
    FlagStoredIffMentioned(utterance);
    if i.added.forwardIdentity.None? {
      if Matches(AddProxyPattern, ws) {
        ProxySaid(ws[5..]);
        AddSaid(ProxyAt(ws[5..]), ws);
      } else {
        DirectSaid(ws[5..]);
        AddSaid(DirectAt(ws[5..]), ws);
      }
      NoFlagNoMention(i, ws);
    }
  }

  // -- updates: what the scanner finds is part of the text

  lemma {:induction false} SpacedPart(s: string, i: nat, j: nat)
    requires Spaced(s) && i <= j <= |s|
    ensures Spaced(s[i..j])
  {
    var t := s[i..j];
    forall k | 0 <= k < |t| && IsSpace(t[k]) ensures t[k] == ' ' && (k + 1 < |t| ==> !IsSpace(t[k + 1])) {
      assert t[k] == s[i + k];
      if k + 1 < |t| { assert t[k + 1] == s[i + k + 1]; }
    }
  }

  lemma {:induction false} HitSpaced(s: string, h: Hit)
    requires Spaced(s) && Within(h, s)
    ensures Spaced(h.raw) && Spaced(h.rest)
  {
    SpacedPart(s, |s| - |h.rest|, |s|);
    SpacedPart(s, |s| - |h.rest| - |h.raw|, |s| - |h.rest|);
  }

  lemma {:induction false} ScanHit(s: string, h: Hit)
    requires FieldAt(s) == Some(h)
    ensures Within(h, s) && Scan(s) == [(h.key, h.raw)] + Scan(h.rest)
  {
  }

  lemma {:induction false} ScanMiss(s: string)
    requires s != [] && FieldAt(s) == None
    ensures Scan(s) == Scan(s[1..])
  {
  }

  ghost predicate HitsSpaced(hits: seq<(Key, string)>) {
    forall i | 0 <= i < |hits| :: Spaced(hits[i].1)
  }

  lemma {:induction false} ScanSpaced(s: string, hits: seq<(Key, string)>)
    requires Spaced(s) && hits == Scan(s)
    ensures HitsSpaced(hits)
    decreases |s|
  {
    if s != [] {
      match FieldAt(s)
      case None =>
        ScanMiss(s);
        SpacedPart(s, 1, |s|);
        ScanSpaced(s[1..], hits);
      case Some(h) =>
        ScanHit(s, h);
        HitSpaced(s, h);
        ScanSpaced(h.rest, hits[1..]);
    }
  }

  lemma {:induction false} StoredSpaced(k: Key, raw: string)
    requires Spaced(raw) && Stored(k, raw).Some?
    ensures var v := Stored(k, raw).value;
            && (if IsFlag(k) then v.Flag? else v.Text?) && (v.Text? ==> Spaced(v.s))
  {
    if |raw| > 1 {
      SpacedPart(raw, 1, |raw| - 1);
    }
  }

  lemma {:induction false} CollectSpaced(fields: Fields, hits: seq<(Key, string)>)
    requires HitsSpaced(hits) && FieldsSpaced(fields) && Typed(fields) && Collect(fields, hits).Some?
    ensures FieldsSpaced(Collect(fields, hits).value) && Typed(Collect(fields, hits).value)
    decreases |hits|
  {
    if hits != [] {
      StoredSpaced(hits[0].0, hits[0].1);
      var v := Stored(hits[0].0, hits[0].1).value;
      CollectSpaced(fields[hits[0].0 := v], hits[1..]);
    }
  }

  lemma {:induction false} JoinSpaced(ws: seq<string>)
    requires AreTokens(ws)
    ensures Spaced(Join(ws)) && (ws != [] ==> Join(ws) != "" && !IsSpace(Join(ws)[0]))
    decreases |ws|
  {
    if |ws| > 1 {
      JoinSpaced(ws[1..]);
      SpacedAcross(" ", Join(ws[1..]));
      SpacedAcross(ws[0], " " + Join(ws[1..]));
      assert ws[0] + (" " + Join(ws[1..])) == Join(ws);
    }
  }

  lemma {:induction false} ParsedFields(ws: seq<string>)
    requires AreTokens(ws) && FieldsOf(Blob(ws)).Some?
    ensures var fields := FieldsOf(Blob(ws)).value;
            fields != map[] && FieldsSpaced(fields) && Typed(fields)
  {
    if |ws| > 1 && Fold(ws[0]) == "set" { TokensAfter(ws, 1); }
    JoinSpaced(if |ws| > 1 && Fold(ws[0]) == "set" then ws[1..] else ws);
    ScanSpaced(Blob(ws), Scan(Blob(ws)));
    CollectSpaced(map[], Scan(Blob(ws)));
  }

  lemma {:induction false} UpdateIsRead(ws: seq<string>)
    requires ParseWords(ws).Ok? && ParseWords(ws).value.Update?
    ensures Matches(UpdatePattern, ws) && ParseWords(ws) == Read(UpdatePattern, ws)
  {
    if p: Pattern :| Matches(p, ws) {
      ParsesBy(p, ws);
    }
  }

  lemma {:induction false} UpdateRefs(ws: seq<string>)
    requires Matches(UpdatePattern, ws) && Read(UpdatePattern, ws).Ok?
    ensures var i := Read(UpdatePattern, ws).value;
            && i.Update? && IsGateway(i.gateway) && IsName(i.name)
            && FieldsOf(Blob(ws[5..])) == Some(i.fields)
  {
  }

  lemma {:induction false} ParsedUpdateSayable(utterance: string)
    requires Parse(utterance).Ok? && Parse(utterance).value.Update?
    ensures var i := Parse(utterance).value;
            && IsGateway(i.gateway) && IsName(i.name) && i.fields != map[]
            && FieldsSpaced(i.fields) && Typed(i.fields)
  {
    var ws := Words(utterance);
    UpdateIsRead(ws);
    UpdateRefs(ws);
    TokensAfter(ws, 5);
    ParsedFields(ws[5..]);
  }

  /** A longer key leaves less room for what follows it. */
  lemma {:induction false} KeysWeighty(fields: Fields)
    ensures Weighty(KeysOf(fields))
  {
    PickWeighty(ALL_KEYS, fields);
  }

  lemma {:induction false} PickWeighty(ks: seq<Key>, fields: Fields)
    requires Weighty(ks)
    ensures Weighty(Pick(ks, fields)) && |Pick(ks, fields)| <= |ks|
    decreases |ks|
  {
    if ks != [] {
      WeightyTail(ks);
      PickWeighty(ks[1..], fields);
      var tail := Pick(ks[1..], fields);
      if ks[0] in fields {
        assert forall k | k in tail :: k in ks[1..];
        WeightyCons(ks, tail);
      }
    }
  }

  lemma {:induction false} WeightyCons(ks: seq<Key>, tail: seq<Key>)
    requires ks != [] && Weighty(ks) && Weighty(tail) && |tail| < |ks| && forall k | k in tail :: k in ks[1..]
    ensures Weighty([ks[0]] + tail)
  {
    var r := [ks[0]] + tail;
    forall j | 0 < j < |r| ensures r[j] != ks[0] && (!IsFlag(ks[0]) ==> !IsFlag(r[j])) {
      assert r[j] in tail;
      var m :| 0 <= m < |ks[1..]| && ks[1..][m] == r[j];
      assert ks[m + 1] == r[j];
    }
    assert forall i | 0 < i < |r| :: r[i] == tail[i - 1];
  }

  lemma {:induction false} UpdateSaidAgainIff(i: Intent)
    requires i.Update? && IsGateway(i.gateway) && IsName(i.name) && i.fields != map[]
    requires FieldsSpaced(i.fields) && Typed(i.fields)
    ensures Parse(Print(i)) == Ok(i) <==> FieldsQuotable(i.fields)
  {
    UpdateTokens(i);
    WordsOfJoin(PrintWords(i));
    UpdateRead(i);
    KeysWeighty(i.fields);
    FieldsSaidAgainIff(KeysOf(i.fields), i.fields);
  }

  /** Whatever was understood can be said again in canonical words and is understood as the same intent, if and
      only if it is not an update with a text that holds both kinds of quotes. */
  lemma {:induction false} ParsedIsSaidAgain(utterance: string)
    requires Parse(utterance).Ok?
    ensures Parse(Print(Parse(utterance).value)) == Parse(utterance)
       <==> (Parse(utterance).value.Update? ==> FieldsQuotable(Parse(utterance).value.fields))
  {
    var i := Parse(utterance).value;
    if i.Update? {
      ParsedUpdateSayable(utterance);
      UpdateSaidAgainIff(i);
    } else {
      if i.Add? {
        ParsedAddSayable(utterance);
        ParsedAddSpoken(utterance);
      }
      IntentRoundTrip(i);
    }
  }

  lemma {:induction false} BareHit(v: string, s: string)
    requires IsToken(v) && v[0] != '"' && v[0] != '\'' && BoolLength(v) == 0 && s == "url=" + v
    ensures FieldAt(s) == Some(Hit(Url, v, ""))
  {
    BareField(v, "");
    assert "url=" + v + "" == "url=" + v && v[..|v|] == v && v[|v|..] + "" == [];
  }

  lemma {:induction false} OneHit(v: string)
    requires v != "" && v[0] != '"' && v[0] != '\''
    ensures Collect(map[], [(Url, v)]) == Some(map[Url := Text(v)])
  {
    assert Stored(Url, v) == Some(Text(v)) && [(Url, v)][1..] == [];
  }

  /** A text that is one match. */
  lemma {:induction false} OneMatch(s: string, h: Hit, fields: Fields)
    requires FieldAt(s) == Some(h) && h.rest == ""
    requires Collect(map[], [(h.key, h.raw)]) == Some(fields) && fields != map[]
    ensures FieldsOf(s) == Some(fields)
  {
    var hits := [(h.key, h.raw)];
    assert Scan(s) == hits by { ScanHit(s, h); }
  }

  /** A bare URL is stored as it stands. */
  lemma {:induction false} BareUrl(v: string, s: string)
    requires IsToken(v) && v[0] != '"' && v[0] != '\'' && BoolLength(v) == 0 && s == "url=" + v
    ensures FieldsOf(s) == Some(map[Url := Text(v)])
  {
    var fields := map[Url := Text(v)];
    assert Url in fields;
    BareHit(v, s);
    OneHit(v);
    OneMatch(s, Hit(Url, v, ""), fields);
  }

  /** Such texts can be said: a bare URL with both kinds of quotes is understood, and its canonical wording is
      understood as something else. */
  lemma {:induction false} BothQuotesAreLost(g: GatewayKey, n: string, v: string)
    requires IsGateway(g) && IsName(n)
    requires IsToken(v) && v[0] != '"' && v[0] != '\'' && BoolLength(v) == 0 && !Quotable(v)
    ensures var said := Update(g, n, map[Url := Text(v)]);
            && Parse(Join(["update", "mcp", n, "on", Ref(g)] + ["url=" + v])) == Ok(said)
            && Parse(Print(said)) != Ok(said)
  {
    var said, tail := Update(g, n, map[Url := Text(v)]), ["url=" + v];
    var ws := ["update", "mcp", n, "on", Ref(g)] + tail;
    HeadedTokens("update", n, "on", g, tail);
    WordsOfJoin(ws);
    BareUrl(v, "url=" + v);
    assert Blob(tail) == "url=" + v;
    UpdateMatches(g, n, tail);
    ParsesBy(UpdatePattern, ws);
    ParsedIsSaidAgain(Join(ws));
    assert said.fields[Url] == Text(v);
  }

  lemma {:induction false} NameMentions(ws: seq<string>)
    requires |ws| > 2 && ws[2] == "forward-identity"
    ensures NamesFlag(ws)
  {
    assert Fold(ws[2]) == ws[2];
    assert StartsAt(ws[2], "forward", 0) && StartsAt(ws[2], "identity", 8);
  }

  /** An MCP that is merely called `forward-identity` gets its identity forwarded. */
  lemma {:induction false} NameTurnsFlagOn(g: GatewayKey, url: string)
    requires IsGateway(g) && IsToken(url)
    ensures var said := Add(g, "forward-identity", Added(RemoteHttp(url), None, None));
            Parse(Print(said)) == Ok(said.(added := said.added.(forwardIdentity := Some(true))))
  {
    var i := Add(g, "forward-identity", Added(RemoteHttp(url), None, None));
    NameMentions(PrintWords(i));
    NameFits();
    IntentRoundTrip(i);
  }

  lemma {:induction false} NameFits()
    ensures IsName("forward-identity")
  {
  }
}
