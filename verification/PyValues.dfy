/** Python's view of JSON values, as tables: what is false, and what `str()` and `int()` make of a value. */
module PyValues {
  import opened Common
  import opened McpCodec

  /** What Python takes for false. */
  predicate Falsy(j: Json) {
    j == Null || j == Bool(false) || j == Num(0) || j == Str("") || j == Arr([]) || j == Obj(map[])
  }

  /** A value whose `str()` is modelled, and that text. */
  predicate Says(j: Json, s: string) {
    || j == Str(s)
    || (j == Null && s == "None")
    || (j == Bool(true) && s == "True")
    || (j == Bool(false) && s == "False")
  }

  predicate Plain(j: Json) {
    j.Str? || j.Null? || j.Bool?
  }

  /** A value whose `int()` is modelled, and that number. */
  predicate Counts(j: Json, n: int) {
    j == Num(n) || (j == Bool(true) && n == 1) || (j == Bool(false) && n == 0)
  }

  lemma {:induction false} TruthIs(j: Json)
    ensures Truthy(j) <==> !Falsy(j)
  {
  }

  lemma {:induction false} SaysIs(j: Json, s: string)
    ensures PyStr(j) == Ok(s) <==> Says(j, s)
    ensures PyStr(j).Ok? <==> Plain(j)
  {
  }

  lemma {:induction false} CountsIs(j: Json, n: int)
    ensures PyInt(j) == Ok(n) <==> Counts(j, n)
  {
  }
}
