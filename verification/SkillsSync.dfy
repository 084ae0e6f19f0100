/** The skills directory sync (`skills_sync.py`): one plan, and what any sequence of profile syncs
    and admin edits leaves on the volume. */
module SkillsSync {
  import opened Common

  datatype SkillFile = SkillFile(name: string, content: string, managed: bool)
  datatype Plan = Plan(write: seq<SkillFile>, delete: seq<string>, keep: seq<string>)

  function SkillName(f: SkillFile): string { f.name }

  function DesiredNames(desired: seq<SkillFile>): set<string> {
    set i | 0 <= i < |desired| :: desired[i].name
  }

  /** `{skill.name: skill for skill in desired}`. */
  function ByName(desired: seq<SkillFile>): map<string, SkillFile> {
    if desired == [] then map[]
    else ByName(desired[..|desired| - 1])[desired[|desired| - 1].name := desired[|desired| - 1]]
  }

  /** The files of a map in the order of `names`. */
  function Picked(byName: map<string, SkillFile>, names: seq<string>): seq<SkillFile>
    requires forall i | 0 <= i < |names| :: names[i] in byName
  {
    seq(|names|, i requires 0 <= i < |names| => byName[names[i]])
  }

  /** `PlanSkillsSync.execute`; None when it raises. */
  function PlanSync(desired: seq<SkillFile>, existing: set<string>, previous: set<string>): Option<Plan> {
    var byName := ByName(desired);
    if |byName| != |desired| || exists i :: 0 <= i < |desired| && !desired[i].managed then None
    else
      ByNameKeys(desired);
      var names := SortedKeys(byName.Keys);
      SortedKeysFacts(byName.Keys);
      Some(Plan(Picked(byName, names),
                SortedKeys((previous - byName.Keys) * existing),
                SortedKeys(existing - byName.Keys - previous)))
  }

  lemma {:induction false} DesiredNamesSnoc(files: seq<SkillFile>, f: SkillFile)
    ensures DesiredNames(files + [f]) == DesiredNames(files) + {f.name}
  {
    var all := files + [f];
    forall n | n in DesiredNames(files) + {f.name} ensures n in DesiredNames(all) {
      if n in DesiredNames(files) {
        var i :| 0 <= i < |files| && files[i].name == n;
        assert all[i].name == n;
      } else {
        assert all[|files|].name == n;
      }
    }
  }

  lemma {:induction false} ByNameKeys(desired: seq<SkillFile>)
    ensures ByName(desired).Keys == DesiredNames(desired)
    ensures |ByName(desired)| <= |desired|
    ensures forall n | n in ByName(desired) :: ByName(desired)[n] in desired && ByName(desired)[n].name == n
  {
    if desired != [] {
      var m := |desired| - 1;
      ByNameKeys(desired[..m]);
      assert desired == desired[..m] + [desired[m]];
      DesiredNamesSnoc(desired[..m], desired[m]);
    }
  }

  // ---------------------------------------------------------------- applying a plan

  /** The skills volume: content per file name. */
  type Dir = map<string, string>

  function WriteAll(dir: Dir, files: seq<SkillFile>): Dir {
    if files == [] then dir
    else WriteAll(dir, files[..|files| - 1])[files[|files| - 1].name := files[|files| - 1].content]
  }

  function Names(s: seq<string>): set<string> {
    set i | 0 <= i < |s| :: s[i]
  }

  function Apply(dir: Dir, plan: Plan): Dir {
    WriteAll(dir - Names(plan.delete), plan.write)
  }

  /** The volume, and the names the profile managed at its last sync. */
  datatype State = State(dir: Dir, managed: set<string>)

  datatype Action =
    | Sync(desired: seq<SkillFile>)
    | AdminWrite(name: string, content: string)
    | AdminDelete(name: string)

  function Step(s: State, a: Action): State {
    match a
    case AdminWrite(n, c) => s.(dir := s.dir[n := c])
    case AdminDelete(n) => s.(dir := s.dir - {n})
    case Sync(desired) =>
      match PlanSync(desired, s.dir.Keys, s.managed)
      case None => s
      case Some(plan) => State(Apply(s.dir, plan), DesiredNames(desired))
  }

  function Run(s: State, actions: seq<Action>): State
    decreases |actions|
  {
    if actions == [] then s else Run(Step(s, actions[0]), actions[1..])
  }

  // ---------------------------------------------------------------- one sync

  lemma {:induction false} NamesOfSorted(ks: set<string>)
    ensures Names(SortedKeys(ks)) == ks
  {
    SortedKeysFacts(ks);
    forall k | k in ks ensures k in Names(SortedKeys(ks)) {
      var i :| 0 <= i < |SortedKeys(ks)| && SortedKeys(ks)[i] == k;
    }
  }

  lemma {:induction false} DistinctSnoc(files: seq<SkillFile>, f: SkillFile)
    ensures DistinctBy(SkillName, files + [f]) <==> DistinctBy(SkillName, files) && f.name !in DesiredNames(files)
  {
    var all := files + [f];
    if DistinctBy(SkillName, all) {
      forall i, j | 0 <= i < j < |files| ensures SkillName(files[i]) != SkillName(files[j]) {
        assert SkillName(all[i]) != SkillName(all[j]);
      }
      forall i | 0 <= i < |files| ensures files[i].name != f.name {
        assert SkillName(all[i]) != SkillName(all[|files|]);
      }
    }
    if DistinctBy(SkillName, files) && f.name !in DesiredNames(files) {
      forall i, j | 0 <= i < j < |all| ensures SkillName(all[i]) != SkillName(all[j]) {
        if j < |files| {
          assert SkillName(files[i]) != SkillName(files[j]);
        } else {
          assert files[i].name in DesiredNames(files);
        }
      }
    }
  }

  /** Where each file went and what was left alone, one file at a time. */
  lemma {:induction false} WriteAllKeys(dir: Dir, files: seq<SkillFile>)
    ensures WriteAll(dir, files).Keys == dir.Keys + DesiredNames(files)
    ensures forall n | n in dir && n !in DesiredNames(files) :: WriteAll(dir, files)[n] == dir[n]
    decreases |files|
  {
    if files != [] {
      var m := |files| - 1;
      WriteAllKeys(dir, files[..m]);
      assert files == files[..m] + [files[m]];
      DesiredNamesSnoc(files[..m], files[m]);
    }
  }

  lemma {:induction false} WriteAllMeans(dir: Dir, files: seq<SkillFile>, i: nat)
    requires DistinctBy(SkillName, files) && i < |files|
    ensures files[i].name in WriteAll(dir, files) && WriteAll(dir, files)[files[i].name] == files[i].content
    decreases |files|
  {
    var m := |files| - 1;
    assert files == files[..m] + [files[m]];
    DistinctSnoc(files[..m], files[m]);
    if i < m {
      WriteAllMeans(dir, files[..m], i);
      assert files[..m][i] == files[i];
      assert files[i].name in DesiredNames(files[..m]);
    }
  }

  lemma {:induction false} DistinctIffSized(desired: seq<SkillFile>)
    ensures |ByName(desired)| == |desired| <==> DistinctBy(SkillName, desired)
    decreases |desired|
  {
    if desired != [] {
      var m := |desired| - 1;
      assert desired == desired[..m] + [desired[m]];
      DistinctIffSized(desired[..m]);
      DistinctSnoc(desired[..m], desired[m]);
      ByNameKeys(desired[..m]);
      var was, k := ByName(desired[..m]), desired[m].name;
      var now := was[k := desired[m]];
      assert now.Keys == was.Keys + {k};
      assert |now| == |now.Keys| && |was| == |was.Keys|;
    }
  }

  lemma {:induction false} ByNameFinds(desired: seq<SkillFile>, i: nat)
    requires DistinctBy(SkillName, desired) && i < |desired|
    ensures desired[i].name in ByName(desired) && ByName(desired)[desired[i].name] == desired[i]
    decreases |desired|
  {
    var m := |desired| - 1;
    assert desired == desired[..m] + [desired[m]];
    DistinctSnoc(desired[..m], desired[m]);
    if i < m {
      ByNameFinds(desired[..m], i);
      assert desired[..m][i] == desired[i];
      assert desired[i].name in DesiredNames(desired[..m]);
    }
  }

  lemma {:induction false} PickedFacts(byName: map<string, SkillFile>, names: seq<string>)
    requires forall i | 0 <= i < |names| :: names[i] in byName && byName[names[i]].name == names[i]
    requires StrictlySorted(names) && forall n | n in byName :: n in names
    ensures DistinctBy(SkillName, Picked(byName, names))
    ensures DesiredNames(Picked(byName, names)) == byName.Keys
    ensures forall n | n in byName :: byName[n] in Picked(byName, names)
  {
    var w := Picked(byName, names);
    assert forall i | 0 <= i < |w| :: w[i].name == names[i];
    forall n | n in byName ensures byName[n] in w && n in DesiredNames(w) {
      var j :| 0 <= j < |names| && names[j] == n;
      assert w[j] == byName[n] && w[j].name == n;
    }
  }

  /** What is written: every desired file, once. */
  lemma {:induction false} PlannedWrites(desired: seq<SkillFile>, existing: set<string>, previous: set<string>)
    requires PlanSync(desired, existing, previous).Some?
    ensures var w := PlanSync(desired, existing, previous).value.write;
            && DistinctBy(SkillName, w) && DesiredNames(w) == DesiredNames(desired)
            && forall i | 0 <= i < |desired| :: desired[i] in w
  {
    var byName := ByName(desired);
    ByNameKeys(desired);
    SortedKeysFacts(byName.Keys);
    DistinctIffSized(desired);
    PickedFacts(byName, SortedKeys(byName.Keys));
    forall i | 0 <= i < |desired| ensures desired[i] in Picked(byName, SortedKeys(byName.Keys)) {
      ByNameFinds(desired, i);
    }
  }

  /** Whatever the volume looked like: after a sync every desired name holds exactly its content, names
      managed before and no longer desired are gone, and every other file is as it was. */
  lemma {:induction false} SyncResult(s: State, desired: seq<SkillFile>)
    requires PlanSync(desired, s.dir.Keys, s.managed).Some?
    ensures var s' := Step(s, Sync(desired));
            && s'.managed == DesiredNames(desired)
            && (forall i | 0 <= i < |desired| ::
                desired[i].name in s'.dir && s'.dir[desired[i].name] == desired[i].content)
            && (forall n | n in s.managed && n !in DesiredNames(desired) :: n !in s'.dir)
            && (forall n | n !in s.managed && n !in DesiredNames(desired) ::
                  (n in s'.dir <==> n in s.dir) && (n in s.dir ==> s'.dir[n] == s.dir[n]))
  {
    var plan := PlanSync(desired, s.dir.Keys, s.managed).value;
    PlannedWrites(desired, s.dir.Keys, s.managed);
    ByNameKeys(desired);
    NamesOfSorted((s.managed - DesiredNames(desired)) * s.dir.Keys);
    WriteAllKeys(s.dir - Names(plan.delete), plan.write);
    forall i | 0 <= i < |desired|
      ensures desired[i].name in Step(s, Sync(desired)).dir &&
          Step(s, Sync(desired)).dir[desired[i].name] == desired[i].content
    {
      var j :| 0 <= j < |plan.write| && plan.write[j] == desired[i];
      WriteAllMeans(s.dir - Names(plan.delete), plan.write, j);
    }
  }

  /** The three lists as sets of names. */
  lemma {:induction false} PlannedNames(desired: seq<SkillFile>, existing: set<string>, previous: set<string>)
    requires PlanSync(desired, existing, previous).Some?
    ensures var plan := PlanSync(desired, existing, previous).value;
            && DesiredNames(plan.write) == DesiredNames(desired)
            && plan.delete == SortedKeys((previous - DesiredNames(desired)) * existing)
            && plan.keep == SortedKeys(existing - DesiredNames(desired) - previous)
  {
    PlannedWrites(desired, existing, previous);
    ByNameKeys(desired);
  }

  /** Written, deleted and kept names never overlap and cover everything there is or should be. */
  lemma {:induction false} PlanPartitions(desired: seq<SkillFile>, existing: set<string>, previous: set<string>)
    requires PlanSync(desired, existing, previous).Some?
    ensures var plan := PlanSync(desired, existing, previous).value;
            var w, d, k := DesiredNames(plan.write), Names(plan.delete), Names(plan.keep);
            && w !! d !! k && w + d + k == existing + DesiredNames(desired)
            && StrictlySorted(plan.delete) && StrictlySorted(plan.keep)
  {
    PlannedNames(desired, existing, previous);
    PartitionOf(DesiredNames(desired), existing, previous);
  }

  lemma {:induction false} PartitionOf(wanted: set<string>, existing: set<string>, previous: set<string>)
    ensures var d, k := SortedKeys((previous - wanted) * existing), SortedKeys(existing - wanted - previous);
            && wanted !! Names(d) !! Names(k) && wanted + Names(d) + Names(k) == existing + wanted
            && StrictlySorted(d) && StrictlySorted(k)
  {
    var d, k := (previous - wanted) * existing, existing - wanted - previous;
    NamesOfSorted(d);
    NamesOfSorted(k);
    SortedKeysFacts(d);
    SortedKeysFacts(k);
    assert wanted + d + k == existing + wanted;
  }

  /** A plan is refused exactly for a repeated name or a file not marked managed. */
  lemma {:induction false} RefusedIff(desired: seq<SkillFile>, existing: set<string>, previous: set<string>)
    ensures PlanSync(desired, existing, previous).Some? <==>
            DistinctBy(SkillName, desired) && forall i | 0 <= i < |desired| :: desired[i].managed
  {
    DistinctIffSized(desired);
  }

  /** Syncing again with nothing in between changes nothing. */
  lemma {:induction false} SecondSyncIsNoOp(s: State, desired: seq<SkillFile>)
    ensures Step(Step(s, Sync(desired)), Sync(desired)) == Step(s, Sync(desired))
  {
    var s1 := Step(s, Sync(desired));
    RefusedIff(desired, s.dir.Keys, s.managed);
    RefusedIff(desired, s1.dir.Keys, s1.managed);
    if PlanSync(desired, s.dir.Keys, s.managed).Some? {
      SyncResult(s, desired);
      SyncResult(s1, desired);
      var s2 := Step(s1, Sync(desired));
      forall n ensures (n in s2.dir <==> n in s1.dir) && (n in s1.dir ==> s2.dir[n] == s1.dir[n]) {
        if n in DesiredNames(desired) {
          var i :| 0 <= i < |desired| && desired[i].name == n;
        }
      }
      assert s2.dir == s1.dir;
    }
  }

  // ---------------------------------------------------------------- whole runs

  /** What the admin alone did to one file. */
  function AdminFile(before: Option<string>, actions: seq<Action>, n: string): Option<string>
    decreases |actions|
  {
    if actions == [] then before
    else AdminFile(match actions[0]
                   case AdminWrite(m, c) => if m == n then Some(c) else before
                   case AdminDelete(m) => if m == n then None else before
                   case Sync(_) => before, actions[1..], n)
  }

  function FileAt(dir: Dir, n: string): Option<string> {
    if n in dir then Some(dir[n]) else None
  }

  /** A name no profile ever managed holds exactly what the admin made of it, over any run. */
  lemma {:induction false} UnmanagedNamesAreTheAdmins(s: State, actions: seq<Action>, n: string)
    requires n !in s.managed
    requires forall i | 0 <= i < |actions| && actions[i].Sync? :: n !in DesiredNames(actions[i].desired)
    ensures FileAt(Run(s, actions).dir, n) == AdminFile(FileAt(s.dir, n), actions, n)
    decreases |actions|
  {
    if actions != [] {
      var a := actions[0];
      if a.Sync? && PlanSync(a.desired, s.dir.Keys, s.managed).Some? {
        SyncResult(s, a.desired);
      }
      assert forall i | 0 <= i < |actions[1..]| :: actions[1..][i] == actions[i + 1];
      UnmanagedNamesAreTheAdmins(Step(s, a), actions[1..], n);
    }
  }
}
