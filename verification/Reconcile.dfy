/** One apply pass (`reconcile.py`, `ownership.py`): every rendered object gets the owner reference and is applied,
    then every attachment is copied, confined to the gateway's namespace, owned and applied. */
module Reconcile {
  import opened Common

  datatype OwnerRef = OwnerRef(apiVersion: string, kind: string, name: string, uid: string, controller: bool)

  datatype Id = Id(apiVersion: string, kind: string, namespace: string, name: string)

  /** A manifest: what identifies it, and the rest of its content. */
  datatype Body = Body(id: Id, labels: map<string, string>, owners: seq<OwnerRef>, content: string)

  const GATEWAY_LABEL := "vmcp.io/gateway"

  // ---------------------------------------------------------------- owner references

  function OthersThan(refs: seq<OwnerRef>, uid: string): seq<OwnerRef> {
    if refs == [] then []
    else (if refs[0].uid != uid then [refs[0]] else []) + OthersThan(refs[1..], uid)
  }

  /** `attach_owner` on the list of references. */
  function WithOwner(refs: seq<OwnerRef>, owner: OwnerRef): seq<OwnerRef> {
    OthersThan(refs, owner.uid) + [owner]
  }

  lemma {:induction false} OthersAppend(a: seq<OwnerRef>, b: seq<OwnerRef>, uid: string)
    ensures OthersThan(a + b, uid) == OthersThan(a, uid) + OthersThan(b, uid)
    decreases |a|
  {
    if a == [] {
      assert a + b == b;
    } else {
      assert (a + b)[1..] == a[1..] + b;
      OthersAppend(a[1..], b, uid);
    }
  }

  lemma {:induction false} OthersTwice(refs: seq<OwnerRef>, uid: string)
    ensures OthersThan(OthersThan(refs, uid), uid) == OthersThan(refs, uid)
    ensures forall r :: r in OthersThan(refs, uid) <==> r in refs && r.uid != uid
    decreases |refs|
  {
    if refs != [] {
      OthersTwice(refs[1..], uid);
      var head := if refs[0].uid != uid then [refs[0]] else [];
      OthersAppend(head, OthersThan(refs[1..], uid), uid);
      assert OthersThan(head, uid) == head by { if head != [] { assert head[1..] == []; } }
      assert refs == [refs[0]] + refs[1..];
    }
  }

  /** Owning twice is owning once; other owners keep their references; this owner ends up with exactly one. */
  lemma {:induction false} OwningIsIdempotent(refs: seq<OwnerRef>, owner: OwnerRef)
    ensures WithOwner(WithOwner(refs, owner), owner) == WithOwner(refs, owner)
    ensures forall r: OwnerRef | r.uid != owner.uid :: r in WithOwner(refs, owner) <==> r in refs
    ensures forall r: OwnerRef | r.uid == owner.uid :: r in WithOwner(refs, owner) <==> r == owner
  {
    OthersTwice(refs, owner.uid);
    OthersAppend(OthersThan(refs, owner.uid), [owner], owner.uid);
    assert OthersThan([owner], owner.uid) == [] by { assert [owner][1..] == []; }
  }

  ghost predicate OneController(refs: seq<OwnerRef>) {
    forall r, s | r in refs && s in refs && r.controller && s.controller :: r == s
  }

  /** The result has a single controller exactly when the manifest names no other controller. Rendered manifests
      name no owner at all, so only an attachment can. */
  lemma {:induction false} OneControllerIff(refs: seq<OwnerRef>, owner: OwnerRef)
    requires owner.controller
    ensures OneController(WithOwner(refs, owner)) <==> forall r | r in refs && r.uid != owner.uid :: !r.controller
  {
    OwningIsIdempotent(refs, owner);
    assert owner in WithOwner(refs, owner);
  }

  // ---------------------------------------------------------------- attachments

  /** `_materialize_attachment`; None when it raises. */
  function Materialize(a: Body, gateway: GatewayKey): Option<Body> {
    if a.id.apiVersion == "" || a.id.kind == "" || a.id.name == "" then None
    else Some(a.(id := a.id.(namespace := gateway.namespace),
                 labels := if GATEWAY_LABEL in a.labels then a.labels else a.labels[GATEWAY_LABEL := gateway.name]))
  }

  function Owned(b: Body, owner: Option<OwnerRef>): Body {
    if owner.Some? then b.(owners := WithOwner(b.owners, owner.value)) else b
  }

  function OwnedAll(bs: seq<Body>, owner: Option<OwnerRef>): (r: seq<Body>)
    ensures |r| == |bs| && forall i | 0 <= i < |bs| :: r[i] == Owned(bs[i], owner)
  {
    seq(|bs|, i requires 0 <= i < |bs| => Owned(bs[i], owner))
  }

  /** The attachments applied by a pass: all of them, or those before the first malformed one. */
  function Attached(attachments: seq<Body>, gateway: GatewayKey, owner: Option<OwnerRef>): seq<Body>
    decreases |attachments|
  {
    if attachments == [] || Materialize(attachments[0], gateway).None? then []
    else [Owned(Materialize(attachments[0], gateway).value, owner)] + Attached(attachments[1..], gateway, owner)
  }

  predicate WellFormed(attachments: seq<Body>, gateway: GatewayKey) {
    forall i | 0 <= i < |attachments| :: Materialize(attachments[i], gateway).Some?
  }

  /** An attachment whose text names a foreign controller is applied with two. */
  lemma {:induction false} ForeignControllerStays(a: Body, foreign: OwnerRef, gateway: GatewayKey, owner: OwnerRef)
    requires Materialize(a, gateway).Some? && a.owners == [foreign]
    requires foreign.controller && owner.controller && foreign.uid != owner.uid
    ensures var applied := Attached([a], gateway, Some(owner));
            |applied| == 1 && applied[0].owners == [foreign, owner] && !OneController(applied[0].owners)
  {
    var owners := WithOwner([foreign], owner);
    assert [foreign][1..] == [] && [a][1..] == [];
    assert OthersThan([foreign], owner.uid) == [foreign];
    assert foreign in owners && owner in owners;
  }

  /** Attachments never leave the gateway's namespace; their label names the gateway unless they bring their own
      value, and every other label and their content is theirs. */
  lemma {:induction false} AttachedStayHome(attachments: seq<Body>, gateway: GatewayKey, owner: Option<OwnerRef>,
                                            i: nat)
    requires i < |Attached(attachments, gateway, owner)|
    ensures var r := Attached(attachments, gateway, owner);
            && |r| <= |attachments|
            && r[i].id == attachments[i].id.(namespace := gateway.namespace)
            && r[i].labels.Keys == attachments[i].labels.Keys + {"vmcp.io/gateway"}
            && (forall l | l in attachments[i].labels :: r[i].labels[l] == attachments[i].labels[l])
            && ("vmcp.io/gateway" !in attachments[i].labels ==> r[i].labels["vmcp.io/gateway"] == gateway.name)
            && r[i].content == attachments[i].content
            && r[i].owners == if owner.None? then attachments[i].owners
                              else WithOwner(attachments[i].owners, owner.value)
    decreases |attachments|
  {
    AttachedCount(attachments, gateway, owner);
    if i > 0 {
      AttachedStayHome(attachments[1..], gateway, owner, i - 1);
      assert attachments[1..][i - 1] == attachments[i];
    }
  }

  /** They stop exactly at the first malformed one, which lacks its apiVersion, its kind or its name. */
  lemma {:induction false} AttachedCount(attachments: seq<Body>, gateway: GatewayKey, owner: Option<OwnerRef>)
    ensures var r := Attached(attachments, gateway, owner);
            && |r| <= |attachments|
            && (|r| < |attachments| ==>
                  "" in {attachments[|r|].id.apiVersion, attachments[|r|].id.kind, attachments[|r|].id.name})
            && (forall i | 0 <= i < |r| ::
                  "" !in {attachments[i].id.apiVersion, attachments[i].id.kind, attachments[i].id.name})
            && (|r| == |attachments| <==> WellFormed(attachments, gateway))
    decreases |attachments|
  {
    if attachments != [] {
      var rest := attachments[1..];
      assert forall i | 0 < i < |attachments| :: attachments[i] == rest[i - 1];
      if Materialize(attachments[0], gateway).Some? {
        AttachedCount(rest, gateway, owner);
        WellFormedCons(attachments, gateway);
      }
    }
  }

  lemma {:induction false} WellFormedCons(attachments: seq<Body>, gateway: GatewayKey)
    requires attachments != [] && Materialize(attachments[0], gateway).Some?
    ensures WellFormed(attachments, gateway) <==> WellFormed(attachments[1..], gateway)
  {
    var rest := attachments[1..];
    assert forall i | 0 <= i < |rest| :: rest[i] == attachments[i + 1];
    if WellFormed(rest, gateway) {
      forall i | 0 <= i < |attachments| ensures Materialize(attachments[i], gateway).Some? {
        if i > 0 { assert attachments[i] == rest[i - 1]; }
      }
    }
  }

  // ---------------------------------------------------------------- the pass

  /** The API server: one object per identity; each apply replaces it. */
  class Cluster {
    var objects: map<Id, Body>

    constructor ()
      ensures objects == map[]
    {
      objects := map[];
    }

    method Apply(b: Body)
      modifies this
      ensures objects == old(objects)[b.id := b]
    {
      objects := objects[b.id := b];
    }
  }

  function AppliedTo(objects: map<Id, Body>, bs: seq<Body>): map<Id, Body>
    decreases |bs|
  {
    if bs == [] then objects else AppliedTo(objects, bs[..|bs| - 1])[bs[|bs| - 1].id := bs[|bs| - 1]]
  }

  lemma {:induction false} AppliedAppend(objects: map<Id, Body>, a: seq<Body>, b: seq<Body>)
    ensures AppliedTo(objects, a + b) == AppliedTo(AppliedTo(objects, a), b)
    decreases |b|
  {
    if b == [] {
      assert a + b == a;
    } else {
      assert (a + b)[..|a + b| - 1] == a + b[..|b| - 1];
      AppliedAppend(objects, a, b[..|b| - 1]);
    }
  }

  /** `GatewayReconcile.execute`: the rendered objects are updated in place and applied in order, then the
      attachments; a malformed attachment fails the pass after everything before it was applied. */
  method Execute(objects: array<Body>, attachments: seq<Body>, gateway: GatewayKey, owner: Option<OwnerRef>,
                 cluster: Cluster)
    returns (ok: bool)
    modifies objects, cluster
    ensures objects[..] == OwnedAll(old(objects[..]), owner)
    ensures cluster.objects == AppliedTo(old(cluster.objects), OwnedAll(old(objects[..]), owner) +
        Attached(attachments, gateway, owner))
    ensures ok <==> WellFormed(attachments, gateway)
  {
    ApplyOwned(objects, owner, cluster);
    AppliedAppend(old(cluster.objects), OwnedAll(old(objects[..]), owner), Attached(attachments, gateway, owner));
    ok := ApplyAttachments(attachments, gateway, owner, cluster);
  }

  /** The second loop. */
  method ApplyAttachments(attachments: seq<Body>, gateway: GatewayKey, owner: Option<OwnerRef>, cluster: Cluster)
    returns (ok: bool)
    modifies cluster
    ensures cluster.objects == AppliedTo(old(cluster.objects), Attached(attachments, gateway, owner))
    ensures ok <==> WellFormed(attachments, gateway)
  {
    ghost var all := Attached(attachments, gateway, owner);
    AttachedCount(attachments, gateway, owner);
    assert all[..0] == [];
    var i := 0;
    while i < |attachments|
      invariant 0 <= i <= |all|
      invariant cluster.objects == AppliedTo(old(cluster.objects), all[..i])
    {
      AttachedAt(attachments, gateway, owner, i);
      var body := Materialize(attachments[i], gateway);
      if body.None? {
        assert all[..i] == all;
        return false;
      }
      cluster.Apply(Owned(body.value, owner));
      assert all[..i + 1][..i] == all[..i];
      i := i + 1;
    }
    assert all[..i] == all;
    ok := true;
  }

  lemma {:induction false} AttachedAt(attachments: seq<Body>, gateway: GatewayKey, owner: Option<OwnerRef>, i: nat)
    requires i <= |Attached(attachments, gateway, owner)| && i < |attachments|
    ensures var r := Attached(attachments, gateway, owner);
            && (Materialize(attachments[i], gateway).Some? <==> i < |r|)
            && (i < |r| ==> r[i] == Owned(Materialize(attachments[i], gateway).value, owner))
    decreases i
  {
    if i > 0 {
      AttachedAt(attachments[1..], gateway, owner, i - 1);
      assert attachments[1..][i - 1] == attachments[i];
    }
  }

  /** The first loop, and all of `McpReconcile.execute`. */
  method ApplyOwned(objects: array<Body>, owner: Option<OwnerRef>, cluster: Cluster)
    modifies objects, cluster
    ensures objects[..] == OwnedAll(old(objects[..]), owner)
    ensures cluster.objects == AppliedTo(old(cluster.objects), OwnedAll(old(objects[..]), owner))
  {
    ghost var was := objects[..];
    ghost var all := OwnedAll(was, owner);
    assert all[..0] == [];
    for i := 0 to objects.Length
      invariant objects[..i] == all[..i] && objects[i..] == was[i..]
      invariant cluster.objects == AppliedTo(old(cluster.objects), all[..i])
    {
      assert objects[i] == objects[i..][0] == was[i];
      objects[i] := Owned(objects[i], owner);
      cluster.Apply(objects[i]);
      assert all[..i + 1] == all[..i] + [all[i]];
      assert objects[..i + 1] == objects[..i] + [objects[i]];
      assert all[..i + 1][..i] == all[..i];
    }
    assert all[..|all|] == all && objects[..objects.Length] == objects[..];
  }

  /** Afterwards each applied object is stored as applied unless a later one of the same identity replaced it,
      and nothing else changed: an attachment named like a rendered object takes its place. */
  lemma {:induction false} LastOneStays(objects: map<Id, Body>, bs: seq<Body>, i: nat)
    requires i < |bs| && forall j | i < j < |bs| :: bs[j].id != bs[i].id
    ensures bs[i].id in AppliedTo(objects, bs) && AppliedTo(objects, bs)[bs[i].id] == bs[i]
    decreases |bs|
  {
    if i < |bs| - 1 {
      LastOneStays(objects, bs[..|bs| - 1], i);
    }
  }

  lemma {:induction false} OthersStay(objects: map<Id, Body>, bs: seq<Body>, id: Id)
    requires forall j | 0 <= j < |bs| :: bs[j].id != id
    ensures id in AppliedTo(objects, bs) <==> id in objects
    ensures id in objects ==> AppliedTo(objects, bs)[id] == objects[id]
    decreases |bs|
  {
    if bs != [] {
      OthersStay(objects, bs[..|bs| - 1], id);
    }
  }

  /** A second pass with the same input changes nothing. */
  lemma {:induction false} PassIsIdempotent(objects: map<Id, Body>, bs: seq<Body>)
    ensures AppliedTo(AppliedTo(objects, bs), bs) == AppliedTo(objects, bs)
  {
    var once := AppliedTo(objects, bs);
    var twice := AppliedTo(once, bs);
    forall id ensures (id in twice <==> id in once) && (id in once ==> twice[id] == once[id]) {
      if exists j :: 0 <= j < |bs| && bs[j].id == id {
        var k := LastIndex(bs, id);
        LastOneStays(objects, bs, k);
        LastOneStays(once, bs, k);
      } else {
        OthersStay(once, bs, id);
      }
    }
  }

  lemma {:induction false} LastIndex(bs: seq<Body>, id: Id) returns (k: nat)
    requires exists j :: 0 <= j < |bs| && bs[j].id == id
    ensures k < |bs| && bs[k].id == id && forall j | k < j < |bs| :: bs[j].id != id
    decreases |bs|
  {
    var n := |bs| - 1;
    if bs[n].id == id {
      k := n;
    } else {
      var j :| 0 <= j < |bs| && bs[j].id == id;
      assert bs[..n][j].id == id;
      k := LastIndex(bs[..n], id);
      assert forall j | k < j < n :: bs[..n][j] == bs[j];
    }
  }
}
