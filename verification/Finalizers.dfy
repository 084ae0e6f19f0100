/** Finalizer decisions (`finalizers.py`) and the transforms that deliver them
    (`finalizer_patch.py`). */
module Finalizers {
  import opened Common

  const GATEWAY_FINALIZER := "vmcp.io/gateway-protection"
  const MCP_FINALIZER := "vmcp.io/unregister-before-gc"

  datatype Decision = Decision(add: seq<string>, remove: seq<string>, blockDelete: bool)

  /** `plan_gateway_finalizer`: nothing is removed while children remain, nothing is added to a dying gateway. */
  function PlanGateway(existing: seq<string>, deleting: bool, childrenRemaining: nat): (d: Decision) {
    if !deleting then
      if GATEWAY_FINALIZER in existing then Decision([], [], false)
      else Decision([GATEWAY_FINALIZER], [], false)
    else if childrenRemaining > 0 then Decision([], [], true)
    else if GATEWAY_FINALIZER in existing then Decision([], [GATEWAY_FINALIZER], false)
    else Decision([], [], false)
  }

  /** `plan_mcp_finalizer`: nothing is removed before the upstream is unregistered. */
  function PlanMcp(existing: seq<string>, deleting: bool, unregistered: bool): (d: Decision) {
    if !deleting then
      if MCP_FINALIZER in existing then Decision([], [], false)
      else Decision([MCP_FINALIZER], [], false)
    else if !unregistered then Decision([], [], true)
    else if MCP_FINALIZER in existing then Decision([], [MCP_FINALIZER], false)
    else Decision([], [], false)
  }

  // ---------------------------------------------------------------- transforms

  /** One scheduled `patch.fns` entry. */
  datatype Op = Ensure(name: string) | Drop(name: string)

  function Without(fs: seq<string>, name: string): (r: seq<string>) {
    if fs == [] then []
    else if fs[0] == name then Without(fs[1..], name)
    else [fs[0]] + Without(fs[1..], name)
  }

  function ApplyOp(op: Op, fs: seq<string>): (r: seq<string>) {
    match op
    case Ensure(n) => if n in fs then fs else fs + [n]
    case Drop(n) => Without(fs, n)
  }

  function ApplyOps(ops: seq<Op>, fs: seq<string>): (r: seq<string>) {
    if ops == [] then fs else ApplyOps(ops[1..], ApplyOp(ops[0], fs))
  }

  function Ensures(names: seq<string>): seq<Op> {
    seq(|names|, i requires 0 <= i < |names| => Ensure(names[i]))
  }

  function Drops(names: seq<string>): seq<Op> {
    seq(|names|, i requires 0 <= i < |names| => Drop(names[i]))
  }

  /** The finalizers of other controllers, in their order. */
  function Foreign(fs: seq<string>, own: set<string>): (r: seq<string>) {
    if fs == [] then []
    else if fs[0] in own then Foreign(fs[1..], own)
    else [fs[0]] + Foreign(fs[1..], own)
  }

  function Names(ops: seq<Op>): set<string> {
    set i | 0 <= i < |ops| :: ops[i].name
  }

  lemma {:induction false} WithoutMembers(fs: seq<string>, name: string)
    ensures forall x :: x in Without(fs, name) <==> x in fs && x != name
  {
    if fs != [] {
      WithoutMembers(fs[1..], name);
      assert fs == [fs[0]] + fs[1..];
    }
  }

  lemma {:induction false} WithoutAbsent(fs: seq<string>, name: string)
    requires name !in fs
    ensures Without(fs, name) == fs
  {
    if fs != [] {
      WithoutAbsent(fs[1..], name);
      assert fs == [fs[0]] + fs[1..];
    }
  }

  lemma {:induction false} ForeignAppend(fs: seq<string>, x: string, own: set<string>)
    ensures Foreign(fs + [x], own) == Foreign(fs, own) + (if x in own then [] else [x])
  {
    if fs != [] {
      ForeignAppend(fs[1..], x, own);
      assert (fs + [x])[1..] == fs[1..] + [x];
    }
  }

  lemma {:induction false} ForeignWithout(fs: seq<string>, name: string, own: set<string>)
    requires name in own
    ensures Foreign(Without(fs, name), own) == Foreign(fs, own)
  {
    if fs != [] {
      ForeignWithout(fs[1..], name, own);
    }
  }

  /** Foreign finalizers are never added, dropped or reordered, whatever is scheduled. */
  lemma {:induction false} ForeignUntouched(ops: seq<Op>, fs: seq<string>, own: set<string>)
    requires Names(ops) <= own
    ensures Foreign(ApplyOps(ops, fs), own) == Foreign(fs, own)
  {
    if ops != [] {
      var op := ops[0];
      assert op.name in Names(ops);
      match op {
        case Ensure(n) => ForeignAppend(fs, n, own);
        case Drop(n) => ForeignWithout(fs, n, own);
      }
      assert forall i | 0 <= i < |ops[1..]| :: ops[1..][i] == ops[i + 1];
      ForeignUntouched(ops[1..], ApplyOp(op, fs), own);
    }
  }

  /** What a scheduled list leaves behind: membership of one name is decided by its last entry. */
  lemma {:induction false} LastEntryDecides(ops: seq<Op>, fs: seq<string>, name: string)
    ensures name !in Names(ops) ==> (name in ApplyOps(ops, fs) <==> name in fs)
    ensures name in Names(ops) ==>
              exists i :: 0 <= i < |ops| && ops[i].name == name
                          && name !in Names(ops[i + 1..])
                          && (name in ApplyOps(ops, fs) <==> ops[i].Ensure?)
  {
    if ops != [] {
      var rest := ops[1..];
      var mid := ApplyOp(ops[0], fs);
      LastEntryDecides(rest, mid, name);
      if ops[0].Drop? { WithoutMembers(fs, ops[0].name); }
      assert forall i | 0 <= i < |rest| :: rest[i] == ops[i + 1];
      if name in Names(rest) {
        var i :| 0 <= i < |rest| && rest[i].name == name
                 && name !in Names(rest[i + 1..]) && (name in ApplyOps(rest, mid) <==> rest[i].Ensure?);
        assert ops[i + 1] == rest[i] && ops[i + 2..] == rest[i + 1..];
        assert name in Names(ops);
      } else if ops[0].name == name {
        assert ops[1..] == rest;
        assert name in Names(ops);
      } else {
        assert name !in Names(ops);
      }
    }
  }

  lemma {:induction false} EnsuresAllPresent(names: seq<string>, fs: seq<string>)
    requires forall n | n in names :: n in fs
    ensures ApplyOps(Ensures(names), fs) == fs
  {
    if names != [] {
      assert Ensures(names)[1..] == Ensures(names[1..]);
      EnsuresAllPresent(names[1..], fs);
    }
  }

  lemma {:induction false} DropsAllAbsent(names: seq<string>, fs: seq<string>)
    requires forall n | n in names :: n !in fs
    ensures ApplyOps(Drops(names), fs) == fs
  {
    if names != [] {
      assert Drops(names)[1..] == Drops(names[1..]);
      WithoutAbsent(fs, names[0]);
      DropsAllAbsent(names[1..], fs);
    }
  }

  /** `ops` is what one handler pass can schedule: only adds, or only removes. */
  ghost predicate OnePass(ops: seq<Op>) {
    exists names :: ops == Ensures(names) || ops == Drops(names)
  }

  /** The transforms of one decision. */
  function Scheduled(d: Decision): seq<Op> {
    Ensures(d.add) + Drops(d.remove)
  }

  lemma {:induction false} OneOp(op: Op, fs: seq<string>)
    ensures ApplyOps([op], fs) == ApplyOp(op, fs)
    ensures op.name in ApplyOps([op], fs) <==> op.Ensure?
    ensures Foreign(ApplyOps([op], fs), {op.name}) == Foreign(fs, {op.name})
  {
    assert [op][1..] == [];
    assert Names([op]) == {op.name} by { assert [op][0] == op; }
    ForeignUntouched([op], fs, {op.name});
    if op.Drop? { WithoutMembers(fs, op.name); }
  }

  lemma {:induction false} ScheduledShape(d: Decision, name: string)
    requires (d.add == [] || d.add == [name]) && (d.remove == [] || d.remove == [name]) &&
        (d.add == [] || d.remove == [])
    ensures d.add == [] && d.remove == [] ==> Scheduled(d) == []
    ensures d.add == [name] ==> Scheduled(d) == [Ensure(name)]
    ensures d.remove == [name] ==> Scheduled(d) == [Drop(name)]
  {
  }

  /** Carrying out a gateway decision settles it: the finalizer is there unless the gateway dies without
      children, every other finalizer is as it was, and deciding again schedules nothing. The deletion is held up
      exactly while children remain. */
  lemma {:induction false} GatewayDecisionSettles(existing: seq<string>, deleting: bool, children: nat)
    ensures var d := PlanGateway(existing, deleting, children);
            var own := "vmcp.io/gateway-protection";
            var after := ApplyOps(Scheduled(d), existing);
            && (!deleting ==> own in after)
            && (deleting && children == 0 ==> own !in after)
            && (deleting && children > 0 ==> after == existing)
            && (d.blockDelete <==> deleting && children > 0)
            && Foreign(after, {own}) == Foreign(existing, {own})
            && Scheduled(PlanGateway(after, deleting, children)) == []
  {
    var d := PlanGateway(existing, deleting, children);
    ScheduledShape(d, GATEWAY_FINALIZER);
    if d.add != [] { OneOp(Ensure(GATEWAY_FINALIZER), existing); }
    if d.remove != [] { OneOp(Drop(GATEWAY_FINALIZER), existing); }
    ScheduledShape(PlanGateway(ApplyOps(Scheduled(d), existing), deleting, children), GATEWAY_FINALIZER);
  }

  /** The same for an MCP, with the unregister answer in place of the children. */
  lemma {:induction false} McpDecisionSettles(existing: seq<string>, deleting: bool, unregistered: bool)
    ensures var d := PlanMcp(existing, deleting, unregistered);
            var own := "vmcp.io/unregister-before-gc";
            var after := ApplyOps(Scheduled(d), existing);
            && (!deleting ==> own in after)
            && (deleting && unregistered ==> own !in after)
            && (deleting && !unregistered ==> after == existing)
            && (d.blockDelete <==> deleting && !unregistered)
            && Foreign(after, {own}) == Foreign(existing, {own})
            && Scheduled(PlanMcp(after, deleting, unregistered)) == []
  {
    var d := PlanMcp(existing, deleting, unregistered);
    ScheduledShape(d, MCP_FINALIZER);
    if d.add != [] { OneOp(Ensure(MCP_FINALIZER), existing); }
    if d.remove != [] { OneOp(Drop(MCP_FINALIZER), existing); }
    ScheduledShape(PlanMcp(ApplyOps(Scheduled(d), existing), deleting, unregistered), MCP_FINALIZER);
  }

  /** Kopf may re-run the transforms on a fresh body: a second run changes nothing. */
  lemma {:induction false} RerunIsNoOp(ops: seq<Op>, fs: seq<string>)
    requires OnePass(ops)
    ensures ApplyOps(ops, ApplyOps(ops, fs)) == ApplyOps(ops, fs)
  {
    var names :| ops == Ensures(names) || ops == Drops(names);
    var once := ApplyOps(ops, fs);
    forall n | n in names
      ensures ops == Ensures(names) ==> n in once
      ensures ops == Drops(names) ==> n !in once
    {
      var k :| 0 <= k < |names| && names[k] == n;
      assert ops[k].name == n && n in Names(ops);
      LastEntryDecides(ops, fs, n);
    }
    if ops == Ensures(names) {
      EnsuresAllPresent(names, once);
    } else {
      DropsAllAbsent(names, once);
    }
  }

  /** A mixed schedule need not be re-runnable: dropping and re-adding a name while
      another is added swaps the two on every run. */
  lemma {:induction false} MixedScheduleRotates()
    ensures var ops := [Drop("a"), Ensure("a"), Ensure("b")];
            ApplyOps(ops, []) == ["a", "b"] && ApplyOps(ops, ["a", "b"]) == ["b", "a"]
  {
    var ops := [Drop("a"), Ensure("a"), Ensure("b")];
    assert ops[1..] == [Ensure("a"), Ensure("b")] && ops[2..] == [Ensure("b")];
    assert ops[1..][1..] == [Ensure("b")];
    var e: seq<string> := [];
    assert ApplyOps(ops, e) == ApplyOps([Ensure("a"), Ensure("b")], e);
    assert ApplyOps([Ensure("a"), Ensure("b")], e) == ApplyOps([Ensure("b")], ["a"]);
    assert ApplyOps([Ensure("b")], ["a"]) == ["a", "b"];
    assert Without(["a", "b"], "a") == ["b"] by { assert ["a", "b"][1..] == ["b"]; }
    assert ApplyOps(ops, ["a", "b"]) == ApplyOps([Ensure("a"), Ensure("b")], ["b"]);
    assert ApplyOps([Ensure("a"), Ensure("b")], ["b"]) == ApplyOps([Ensure("b")], ["b", "a"]);
  }

  // ---------------------------------------------------------------- the mutable body and patch

  /** `metadata.finalizers` of a JSON body: missing, null, or a list. */
  datatype Field = Missing | Null | Items(items: seq<string>)

  function Listed(f: Field): seq<string> {
    if f.Items? then f.items else []
  }

  /** The object body a transform is run against. */
  class Body {
    var finalizers: Field

    constructor (f: Field)
      ensures finalizers == f
    {
      finalizers := f;
    }

    /** `ensure_finalizer`; false when the field is an explicit null, which Python rejects. */
    method Ensure(name: string) returns (ok: bool)
      modifies this
      ensures ok == !old(finalizers).Null?
      ensures ok ==> finalizers == Items(ApplyOp(Op.Ensure(name), Listed(old(finalizers))))
      ensures !ok ==> finalizers == old(finalizers)
    {
      if finalizers.Missing? {
        finalizers := Items([]);
      }
      if finalizers.Null? {
        return false;
      }
      if name !in finalizers.items {
        finalizers := Items(finalizers.items + [name]);
      }
      ok := true;
    }

    /** `drop_finalizer`: keeps every other item in place. */
    method Drop(name: string)
      modifies this
      ensures finalizers == Items(ApplyOp(Op.Drop(name), Listed(old(finalizers))))
    {
      var existing := Listed(finalizers);
      var kept: seq<string> := [];
      for i := 0 to |existing|
        invariant kept + Without(existing[i..], name) == Without(existing, name)
        invariant finalizers == old(finalizers)
      {
        assert existing[i..][1..] == existing[i + 1..];
        if existing[i] != name {
          kept := kept + [existing[i]];
        }
      }
      assert existing[|existing|..] == [];
      finalizers := Items(kept);
    }
  }

  /** The Kopf patch handed to a handler; `fns` collects the transforms. */
  class Patch {
    var fns: seq<Op>

    constructor ()
      ensures fns == []
    {
      fns := [];
    }

    /** `schedule_finalizer_adds`. */
    method ScheduleAdds(names: seq<string>)
      modifies this
      ensures fns == old(fns) + Ensures(names)
    {
      for i := 0 to |names|
        invariant fns == old(fns) + Ensures(names[..i])
      {
        assert Ensures(names[..i + 1]) == Ensures(names[..i]) + [Op.Ensure(names[i])];
        fns := fns + [Op.Ensure(names[i])];
      }
      assert names[..|names|] == names;
    }

    /** `schedule_finalizer_removes`. */
    method ScheduleRemoves(names: seq<string>)
      modifies this
      ensures fns == old(fns) + Drops(names)
    {
      for i := 0 to |names|
        invariant fns == old(fns) + Drops(names[..i])
      {
        assert Drops(names[..i + 1]) == Drops(names[..i]) + [Op.Drop(names[i])];
        fns := fns + [Op.Drop(names[i])];
      }
      assert names[..|names|] == names;
    }
  }

  /** `apply_fns_to_body`: runs the schedule in order. A body whose finalizers are an
      explicit null survives only if no add comes before the first drop. */
  method ApplyFnsToBody(fns: seq<Op>, body: Body) returns (ok: bool)
    modifies body
    ensures ok <==> old(body.finalizers).Null? && fns != [] ==> fns[0].Drop?
    ensures ok && fns != [] ==> body.finalizers == Items(ApplyOps(fns, Listed(old(body.finalizers))))
    ensures fns == [] || !ok ==> body.finalizers == old(body.finalizers)
  {
    ghost var start := Listed(body.finalizers);
    for i := 0 to |fns|
      invariant i == 0 ==> body.finalizers == old(body.finalizers)
      invariant i > 0 ==> body.finalizers.Items? && (old(body.finalizers).Null? ==> fns[0].Drop?)
      invariant ApplyOps(fns[i..], Listed(body.finalizers)) == ApplyOps(fns, start)
    {
      assert fns[i..][1..] == fns[i + 1..];
      match fns[i] {
        case Ensure(n) =>
          var done := body.Ensure(n);
          if !done {
            return false;
          }
        case Drop(n) =>
          body.Drop(n);
      }
    }
    assert fns[|fns|..] == [];
    ok := true;
  }
}
