/** Texts that hold both kinds of quotes: no quote can print them, and fields with such a text never come back
    from their canonical wording. The proof counts characters: what was cut off is missed in the rest. */
module NlQuotes {
  import opened Common
  import opened NlText
  import opened NlFields
  import opened Search

  /** Values of their key's type. */
  ghost predicate Typed(fields: Fields) {
    forall k | k in fields :: if IsFlag(k) then fields[k].Flag? else fields[k].Text?
  }

  predicate FieldsQuotable(fields: Fields) {
    forall k | k in fields && fields[k].Text? :: Quotable(fields[k].s)
  }

  // ---------------------------------------------------------------- the weight of matches

  /** Characters that the matches of key `k` take at least. */
  function Weight(hits: seq<(Key, string)>, k: Key): nat {
    if hits == [] then 0
    else (if hits[0].0 == k then |LowerName(k)| + 1 + |hits[0].1| else 0) + Weight(hits[1..], k)
  }

  function TotalWeight(hits: seq<(Key, string)>): nat {
    if hits == [] then 0 else |LowerName(hits[0].0)| + 1 + |hits[0].1| + TotalWeight(hits[1..])
  }

  lemma {:induction false} HitWeight(s: string, h: Hit)
    requires FieldAt(s) == Some(h)
    ensures |LowerName(h.key)| + 1 + |h.raw| + |h.rest| <= |s|
  {
    assert Within(h, s[|LowerName(h.key)|..]);
  }

  /** Matches do not overlap. */
  lemma {:induction false} ScanWeight(s: string)
    ensures TotalWeight(Scan(s)) <= |s|
    decreases |s|
  {
    if s != [] {
      match FieldAt(s)
      case None => ScanWeight(s[1..]);
      case Some(h) =>
        HitWeight(s, h);
        ScanWeight(h.rest);
        assert Scan(s)[1..] == Scan(h.rest);
    }
  }

  function SumWeight(ks: seq<Key>, hits: seq<(Key, string)>): nat {
    if ks == [] then 0 else Weight(hits, ks[0]) + SumWeight(ks[1..], hits)
  }

  predicate Distinct(ks: seq<Key>) {
    forall i, j | 0 <= i < j < |ks| :: ks[i] != ks[j]
  }

  lemma {:induction false} SumStep(ks: seq<Key>, hits: seq<(Key, string)>)
    requires hits != [] && Distinct(ks)
    ensures SumWeight(ks, hits) == SumWeight(ks, hits[1..]) +
              if hits[0].0 in ks then |LowerName(hits[0].0)| + 1 + |hits[0].1| else 0
    decreases |ks|
  {
    if ks != [] {
      SumStep(ks[1..], hits);
      assert hits[0].0 in ks <==> hits[0].0 == ks[0] || hits[0].0 in ks[1..];
    }
  }

  lemma {:induction false} SumWithin(ks: seq<Key>, hits: seq<(Key, string)>)
    requires Distinct(ks)
    ensures SumWeight(ks, hits) <= TotalWeight(hits)
    decreases |hits|
  {
    if hits == [] {
      NoWeight(ks);
    } else {
      SumStep(ks, hits);
      SumWithin(ks, hits[1..]);
    }
  }

  lemma {:induction false} NoWeight(ks: seq<Key>)
    ensures SumWeight(ks, []) == 0
    decreases |ks|
  {
    if ks != [] { NoWeight(ks[1..]); }
  }

  // ---------------------------------------------------------------- what is found

  /** Some match stores this value under this key. */
  ghost predicate Found(hits: seq<(Key, string)>, k: Key, v: Value) {
    exists i :: 0 <= i < |hits| && hits[i].0 == k && Stored(k, hits[i].1) == Some(v)
  }

  lemma {:induction false} FoundCons(hit: (Key, string), hits: seq<(Key, string)>, k: Key, v: Value)
    requires Found([hit] + hits, k, v) && !(hit.0 == k && Stored(k, hit.1) == Some(v))
    ensures Found(hits, k, v)
  {
    var i :| 0 <= i < |[hit] + hits| && ([hit] + hits)[i].0 == k && Stored(k, ([hit] + hits)[i].1) == Some(v);
    assert hits[i - 1] == ([hit] + hits)[i];
  }

  /** Every collected field was found. */
  lemma {:induction false} CollectedIsFound(acc: Fields, hits: seq<(Key, string)>, k: Key)
    requires Collect(acc, hits).Some? && k in Collect(acc, hits).value
    ensures Found(hits, k, Collect(acc, hits).value[k]) || (k in acc && acc[k] == Collect(acc, hits).value[k])
    decreases |hits|
  {
    if hits != [] {
      var v := Stored(hits[0].0, hits[0].1).value;
      CollectedIsFound(acc[hits[0].0 := v], hits[1..], k);
      var r := Collect(acc, hits).value[k];
      if Found(hits[1..], k, r) {
        var i :| 0 <= i < |hits[1..]| && hits[1..][i].0 == k && Stored(k, hits[1..][i].1) == Some(r);
        assert hits[i + 1] == hits[1..][i];
      }
    }
  }

  lemma {:induction false} StoredShorter(k: Key, raw: string, s: string)
    requires Stored(k, raw) == Some(Text(s))
    ensures |s| <= |raw|
  {
  }

  lemma {:induction false} FoundWeighs(hits: seq<(Key, string)>, k: Key, s: string)
    requires Found(hits, k, Text(s))
    ensures |LowerName(k)| + 1 + |s| <= Weight(hits, k)
    decreases |hits|
  {
    var first, tail := hits[0], hits[1..];
    if first.0 == k && Stored(k, first.1) == Some(Text(s)) {
      StoredShorter(k, first.1, s);
    } else {
      assert hits == [first] + tail;
      FoundCons(first, tail, k, Text(s));
      FoundWeighs(tail, k, s);
    }
  }

  // ---------------------------------------------------------------- a broken pair

  lemma {:induction false} SingleQuoted(k: Key, v: string, after: string)
    requires '\'' !in v
    ensures FieldAt(Name(k) + ("=" + (['\''] + v + ['\''] + after))) == Some(Hit(k, ['\''] + v + ['\''], after))
  {
    var w := ['\''] + v + ['\''] + after;
    QuotedValue('\'', v, after);
    NamedField(k, "=" + w);
    ValueAfterEquals(k, w);
    assert w[..|v| + 2] == ['\''] + v + ['\''] && w[|v| + 2..] == after;
  }

  lemma {:induction false} Regroup(q: string, a: string, b: string, rest: string)
    ensures (q + (a + q + b) + q) + rest == q + a + q + (b + q + rest)
  {
    assert q + (a + q + b) + q == q + a + q + (b + q);
    assert (q + a + q + (b + q)) + rest == q + a + q + ((b + q) + rest);
  }

  lemma {:induction false} PairGroups(n: string, w: string, rest: string)
    ensures " " + (n + "=" + w) + rest == " " + (n + ("=" + (w + rest)))
  {
    assert n + "=" + w == n + ("=" + w);
    assert (n + ("=" + w)) + rest == n + ("=" + (w + rest));
  }

  lemma {:induction false} BrokenText(k: Key, t: string, i: nat, rest: string)
    requires i < |t| && t[i] == '\'' && '"' in t
    ensures " " + PrintPair(k, Text(t)) + rest
         == " " + (Name(k) + ("=" + (['\''] + t[..i] + ['\''] + (t[i + 1..] + ['\''] + rest))))
  {
    assert t == t[..i] + ['\''] + t[i + 1..];
    Regroup(['\''], t[..i], t[i + 1..], rest);
    PairGroups(Name(k), ['\''] + t + ['\''], rest);
  }

  /** A text with both quotes is printed in single ones and read up to its first single quote. */
  lemma {:induction false} BrokenPair(k: Key, t: string, rest: string) returns (i: nat)
    requires !IsFlag(k) && !Quotable(t)
    ensures i < |t|
    ensures Scan(" " + PrintPair(k, Text(t)) + rest)
         == [(k, ['\''] + t[..i] + ['\''])] + Scan(t[i + 1..] + ['\''] + rest)
    ensures Stored(k, ['\''] + t[..i] + ['\'']) == Some(Text(t[..i]))
  {
    i := IndexOf(t, '\'');
    var v, after := t[..i], t[i + 1..] + ['\''] + rest;
    BrokenText(k, t, i, rest);
    BlankSkipped(Name(k) + ("=" + (['\''] + v + ['\''] + after)));
    SingleQuoted(k, v, after);
    QuotedValue('\'', v, "");
  }

  /** Characters that printing the texts takes, and that finding them would take. */
  function Room(ks: seq<Key>, fields: Fields): nat
    requires Typed(fields) && forall k | k in ks :: k in fields && !IsFlag(k)
  {
    if ks == [] then 0 else |LowerName(ks[0])| + 1 + |fields[ks[0]].s| + Room(ks[1..], fields)
  }

  lemma {:induction false} PrintedRoom(ks: seq<Key>, fields: Fields)
    requires Typed(fields) && forall k | k in ks :: k in fields && !IsFlag(k)
    ensures |PrintPairs(ks, fields)| == Room(ks, fields) + 3 * |ks|
    decreases |ks|
  {
    if ks != [] {
      PrintedRoom(ks[1..], fields);
      FoldName(ks[0]);
    }
  }

  lemma {:induction false} FoundRoom(ks: seq<Key>, fields: Fields, hits: seq<(Key, string)>)
    requires Typed(fields) && forall k | k in ks :: k in fields && !IsFlag(k) && Found(hits, k, fields[k])
    ensures Room(ks, fields) <= SumWeight(ks, hits)
    decreases |ks|
  {
    if ks != [] {
      FoundWeighs(hits, ks[0], fields[ks[0]].s);
      FoundRoom(ks[1..], fields, hits);
    }
  }

  /** Keys in an order in which every text key is long for what follows it. */
  predicate Weighty(ks: seq<Key>) {
    && Distinct(ks)
    && forall i | 0 <= i < |ks| && !IsFlag(ks[i]) ::
         |LowerName(ks[i])| + 1 > 3 * (|ks| - i - 1) && forall j | i < j < |ks| :: !IsFlag(ks[j])
  }

  /** What a broken pair cut off is missed later: some field is not found. */
  lemma {:induction false} BrokenIsLost(ks: seq<Key>, fields: Fields) returns (lost: Key)
    requires ks != [] && Weighty(ks) && Typed(fields) && forall k | k in ks :: k in fields && !IsFlag(k)
    requires !Quotable(fields[ks[0]].s)
    ensures lost in ks && !Found(Scan(PrintPairs(ks, fields)), lost, fields[lost])
  {
    var k, t, rest := ks[0], fields[ks[0]].s, PrintPairs(ks[1..], fields);
    var hits := Scan(PrintPairs(ks, fields));
    if j :| j in ks && !Found(hits, j, fields[j]) {
      lost := j;
    } else {
      var i := BrokenPair(k, t, rest);
      var after := t[i + 1..] + ['\''] + rest;
      var cut := (k, ['\''] + t[..i] + ['\'']);
      forall j | j in ks ensures Found(Scan(after), j, fields[j]) {
        FoundCons(cut, Scan(after), j, fields[j]);
      }
      FoundRoom(ks, fields, Scan(after));
      SumWithin(ks, Scan(after));
      ScanWeight(after);
      PrintedRoom(ks[1..], fields);
      assert false;
    }
  }

  /** The pairs before the broken one are found one by one. */
  lemma {:induction false} UnquotableIsLost(ks: seq<Key>, fields: Fields) returns (lost: Key)
    requires Weighty(ks) && Typed(fields) && forall k | k in ks :: k in fields
    requires exists k :: k in ks && fields[k].Text? && !Quotable(fields[k].s)
    ensures lost in ks && !Found(Scan(PrintPairs(ks, fields)), lost, fields[lost])
    decreases |ks|
  {
    var k := ks[0];
    if Fits(k, fields[k]) {
      var rest := PrintPairs(ks[1..], fields);
      ScanPrinted(k, fields[k], rest);
      WeightyTail(ks);
      lost := UnquotableIsLost(ks[1..], fields);
      if Found(Scan(PrintPairs(ks, fields)), lost, fields[lost]) {
        var j :| 0 <= j < |ks[1..]| && ks[1..][j] == lost;
        assert ks[j + 1] == lost && lost != k;
        FoundCons((k, PrintValue(fields[k])), Scan(rest), lost, fields[lost]);
      }
    } else {
      assert !IsFlag(k);
      lost := BrokenIsLost(ks, fields);
    }
  }

  lemma {:induction false} WeightyTail(ks: seq<Key>)
    requires ks != [] && Weighty(ks)
    ensures Weighty(ks[1..])
  {
    var t := ks[1..];
    assert forall i | 0 <= i < |t| :: t[i] == ks[i + 1];
  }

  /** Fields come back from their canonical wording exactly when every text is quotable. */
  lemma {:induction false} FieldsSaidAgainIff(ks: seq<Key>, fields: Fields)
    requires Weighty(ks) && Typed(fields) && fields != map[]
    requires forall k :: k in ks <==> k in fields
    ensures FieldsOf(PrintPairs(ks, fields)) == Some(fields) <==> FieldsQuotable(fields)
  {
    if FieldsQuotable(fields) {
      FieldsRoundTrip(ks, fields);
    } else if FieldsOf(PrintPairs(ks, fields)) == Some(fields) {
      var lost := UnquotableIsLost(ks, fields);
      CollectedIsFound(map[], Scan(PrintPairs(ks, fields)), lost);
    }
  }
}
