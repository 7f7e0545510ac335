/** The pods and the index of their ids, in memory and in its file: what becomes of them when index
    writes fail and the process restarts with what the file holds. */
module Pods {
  import opened Options
  import opened Mapping

  /** What a pod was started with. */
  datatype Running = Running(manifest: string, auth: string)

  datatype Pod = Pod(name: string, running: Running)

  predicate Named(pods: map<string, Pod>, name: string)
  {
    exists id :: id in pods && pods[id].name == name
  }

  /** Podman refuses a pod name that is in use. */
  ghost predicate UniqueNames(pods: map<string, Pod>)
  {
    forall i, j :: i in pods && j in pods && pods[i].name == pods[j].name ==> i == j
  }

  ghost function IdOf(pods: map<string, Pod>, name: string): string
    requires Named(pods, name)
  {
    var id :| id in pods && pods[id].name == name;
    id
  }

  /** What runs under which name. */
  ghost function DeployedPods(pods: map<string, Pod>): map<string, Running>
  {
    map name | name in (set id | id in pods :: pods[id].name) :: pods[IdOf(pods, name)].running
  }

  lemma DeployedIffNamed(pods: map<string, Pod>, name: string)
    ensures name in DeployedPods(pods) <==> Named(pods, name)
  {
    if Named(pods, name) {
      var id :| id in pods && pods[id].name == name;
      assert pods[id].name in (set id | id in pods :: pods[id].name);
    }
  }

  lemma DeployedAt(pods: map<string, Pod>, id: string)
    requires UniqueNames(pods) && id in pods
    ensures pods[id].name in DeployedPods(pods) && DeployedPods(pods)[pods[id].name] == pods[id].running
  {
    DeployedIffNamed(pods, pods[id].name);
    assert IdOf(pods, pods[id].name) == id;
  }

  /** There is one way to say what runs under which name. */
  lemma DeployedIs(pods: map<string, Pod>, deployed: map<string, Running>)
    requires UniqueNames(pods)
    requires forall name :: name in deployed ==> Named(pods, name)
    requires forall id :: id in pods ==> pods[id].name in deployed && deployed[pods[id].name] == pods[id].running
    ensures DeployedPods(pods) == deployed
  {
    hide DeployedPods, UniqueNames;
    forall name
      ensures name in DeployedPods(pods) <==> name in deployed
      ensures name in deployed ==> DeployedPods(pods)[name] == deployed[name]
    {
      DeployedIffNamed(pods, name);
      if Named(pods, name) {
        var id :| id in pods && pods[id].name == name;
        DeployedAt(pods, id);
      }
    }
  }

  // ---------- States and steps ----------

  /** given are the ids podman ever gave to a pod. */
  datatype Indexed = Indexed(ix: Index, pods: map<string, Pod>, file: seq<Entry>, given: set<string>)

  /** What happens to them: a pod is removed or started, and the index file is written or not; a
      restart loads the index from the file. */
  datatype Step =
    | Delete(name: string, written: Option<seq<Entry>>)
    | Launch(name: string, id: string, running: Running, written: Option<seq<Entry>>)
    | Reload

  /** The pods podman is told to remove: by the id in the index, or else by name. */
  function Targets(ix: Index, pods: map<string, Pod>, name: string): set<string>
  {
    if name in ix.nameToId then {ix.nameToId[name]} else set id | id in pods && pods[id].name == name
  }

  /** Podman never gives an id twice and refuses a name in use. */
  ghost predicate Possible(s: Indexed, step: Step)
  {
    match step
    case Delete(name, written) =>
      written.Some? ==> Lists(written.value, Removed(s.ix, name).idToName)
    case Launch(name, id, _, written) =>
      && !Named(s.pods, name) && id != "" && id !in s.given
      && (written.Some? ==> Lists(written.value, Added(s.ix, name, id).idToName))
    case Reload => true
  }

  function Written(file: seq<Entry>, written: Option<seq<Entry>>): seq<Entry>
  {
    if written.Some? then written.value else file
  }

  function Stepped(s: Indexed, step: Step): Indexed
  {
    match step
    case Delete(name, written) =>
      Indexed(Removed(s.ix, name), s.pods - Targets(s.ix, s.pods, name), Written(s.file, written), s.given)
    case Launch(name, id, running, written) =>
      Indexed(Added(s.ix, name, id), s.pods[id := Pod(name, running)], Written(s.file, written), s.given + {id})
    case Reload =>
      s.(ix := Rebuilt(s.file))
  }

  // ---------- What every step keeps ----------

  /** An index may be out of date, but it never gives a wrong name to a pod, nor a wrong id to a name
      that has a pod. */
  ghost predicate NeverMisleads(ix: Index, pods: map<string, Pod>)
  {
    && Inverse(ix) && "" !in ix.idToName
    && (forall id :: id in ix.idToName && id in pods ==> pods[id].name == ix.idToName[id])
    && (forall name :: name in ix.nameToId && Named(pods, name) ==> ix.nameToId[name] in pods)
  }

  /** Neither the index in memory nor the one a restart would load misleads. */
  ghost predicate Safe(s: Indexed)
  {
    && UniqueNames(s.pods) && NeverMisleads(s.ix, s.pods) && NeverMisleads(Rebuilt(s.file), s.pods)
    && s.pods.Keys + s.ix.idToName.Keys + Rebuilt(s.file).idToName.Keys <= s.given
  }

  /** Neither of them knows the name. */
  ghost predicate Free(s: Indexed, name: string)
  {
    name !in s.ix.nameToId && name !in Rebuilt(s.file).nameToId
  }

  lemma NothingIsSafe(file: seq<Entry>)
    requires file == []
    ensures Safe(Indexed(Rebuilt(file), map[], file, {})) && DeployedPods(map[]) == map[]
  {
  }

  lemma ForgottenFileIsSafe(s: Indexed)
    requires Safe(s)
    ensures Safe(s.(file := []))
  {
  }

  /** A removal leaves no pod of the name, and all others, also when the index is out of date. */
  lemma DropFindsThePod(ix: Index, pods: map<string, Pod>, name: string)
    requires UniqueNames(pods) && NeverMisleads(ix, pods)
    ensures var left := pods - Targets(ix, pods, name);
            !Named(left, name) && forall id :: id in pods && pods[id].name != name ==> id in left
  {
    if name in ix.nameToId && ix.nameToId[name] in pods {
      assert ix.idToName[ix.nameToId[name]] == name;
    }
  }

  lemma DropDeployed(pods: map<string, Pod>, left: map<string, Pod>, name: string)
    requires UniqueNames(pods) && left.Keys <= pods.Keys && forall id :: id in left ==> left[id] == pods[id]
    requires !Named(left, name) && forall id :: id in pods && pods[id].name != name ==> id in left
    ensures DeployedPods(left) == DeployedPods(pods) - {name}
  {
    hide DeployedPods;
    DropKeepsUnique(pods, left);
    forall other | other in DeployedPods(pods) - {name}
      ensures Named(left, other)
    {
      DeployedIffNamed(pods, other);
      var id :| id in pods && pods[id].name == other;
      assert id in left;
    }
    forall id | id in left
      ensures left[id].name in DeployedPods(pods) && DeployedPods(pods)[left[id].name] == left[id].running
    {
      DeployedAt(pods, id);
    }
    DeployedIs(left, DeployedPods(pods) - {name});
  }

  lemma LaunchDeployed(pods: map<string, Pod>, name: string, id: string, running: Running)
    requires UniqueNames(pods) && !Named(pods, name) && id !in pods
    ensures var more := pods[id := Pod(name, running)];
            UniqueNames(more) && DeployedPods(more) == DeployedPods(pods)[name := running]
  {
    hide DeployedPods;
    var more := pods[id := Pod(name, running)];
    var after := DeployedPods(pods)[name := running];
    forall other | other in after
      ensures Named(more, other)
    {
      if other == name {
        assert more[id].name == name;
      } else {
        DeployedIffNamed(pods, other);
        var found :| found in pods && pods[found].name == other;
        assert more[found].name == other;
      }
    }
    forall other | other in more
      ensures more[other].name in after && after[more[other].name] == more[other].running
    {
      if other != id {
        DeployedAt(pods, other);
        assert pods[other].name != name;
      }
    }
    DeployedIs(more, after);
  }

  lemma DropKeepsIndex(ix: Index, pods: map<string, Pod>, left: map<string, Pod>, name: string)
    requires NeverMisleads(ix, pods) && left.Keys <= pods.Keys && forall id :: id in left ==> left[id] == pods[id]
    requires !Named(left, name) && forall id :: id in pods && pods[id].name != name ==> id in left
    ensures NeverMisleads(ix, left) && NeverMisleads(Removed(ix, name), left)
  {
    RemoveKeepsInverse(ix, name);
    forall other | other in ix.nameToId && Named(left, other)
      ensures ix.nameToId[other] in left
    {
      assert Named(pods, other);
      var id := ix.nameToId[other];
      assert ix.idToName[id] == other && pods[id].name == other;
    }
  }

  lemma LaunchKeepsIndex(ix: Index, pods: map<string, Pod>, name: string, id: string, running: Running)
    requires NeverMisleads(ix, pods) && name !in ix.nameToId && id !in ix.idToName && id !in pods && id != ""
    ensures var more := pods[id := Pod(name, running)];
            NeverMisleads(ix, more) && NeverMisleads(Added(ix, name, id), more)
  {
    AddKeepsInverse(ix, name, id);
    var more := pods[id := Pod(name, running)];
    forall other | other in ix.nameToId && Named(more, other)
      ensures ix.nameToId[other] in pods
    {
      var found :| found in more && more[found].name == other;
      assert found in pods;
    }
  }

  /** What a restart would load is the index in memory whenever that was written. */
  lemma WrittenIsLoaded(ix: Index, file: seq<Entry>, written: Option<seq<Entry>>)
    requires Inverse(ix) && (written.Some? ==> Lists(written.value, ix.idToName))
    ensures Rebuilt(Written(file, written)) == if written.Some? then ix else Rebuilt(file)
  {
    if written.Some? {
      ReloadRestores(ix, written.value);
    }
  }

  lemma MisleadsNot(ix: Index, pods: map<string, Pod>)
    requires NeverMisleads(ix, pods)
    ensures Inverse(ix)
  {
  }

  /** A removal keeps everything safe, and the name is then free unless the file could not be
      written. */
  lemma DropKeepsSafe(s: Indexed, name: string, written: Option<seq<Entry>>)
    requires Safe(s) && Possible(s, Delete(name, written))
    ensures var t := Stepped(s, Delete(name, written));
            && Safe(t) && !Named(t.pods, name)
            && DeployedPods(t.pods) == DeployedPods(s.pods) - {name}
            && (written.Some? ==> Free(t, name))
  {
    hide NeverMisleads, Rebuilt, Named, UniqueNames, DeployedPods;
    var left := s.pods - Targets(s.ix, s.pods, name);
    DropFindsThePod(s.ix, s.pods, name);
    DropDeployed(s.pods, left, name);
    DropKeepsIndex(s.ix, s.pods, left, name);
    DropKeepsIndex(Rebuilt(s.file), s.pods, left, name);
    DropKeepsUnique(s.pods, left);
    MisleadsNot(Removed(s.ix, name), left);
    WrittenIsLoaded(Removed(s.ix, name), s.file, written);
  }

  lemma DropKeepsUnique(pods: map<string, Pod>, left: map<string, Pod>)
    requires UniqueNames(pods) && left.Keys <= pods.Keys && forall id :: id in left ==> left[id] == pods[id]
    ensures UniqueNames(left)
  {
  }

  /** A name that is free stays so when others are removed. */
  lemma DropKeepsFree(s: Indexed, name: string, written: Option<seq<Entry>>, other: string)
    requires Safe(s) && Possible(s, Delete(name, written)) && Free(s, other)
    ensures Free(Stepped(s, Delete(name, written)), other)
  {
    hide NeverMisleads, Rebuilt;
    var left := s.pods - Targets(s.ix, s.pods, name);
    DropFindsThePod(s.ix, s.pods, name);
    DropKeepsIndex(s.ix, s.pods, left, name);
    MisleadsNot(Removed(s.ix, name), left);
    WrittenIsLoaded(Removed(s.ix, name), s.file, written);
  }

  /** So does a start, under a free name. */
  lemma LaunchKeepsSafe(s: Indexed, name: string, id: string, running: Running, written: Option<seq<Entry>>)
    requires Safe(s) && Free(s, name) && Possible(s, Launch(name, id, running, written))
    ensures var t := Stepped(s, Launch(name, id, running, written));
            Safe(t) && DeployedPods(t.pods) == DeployedPods(s.pods)[name := running]
  {
    hide NeverMisleads, Rebuilt, Named, UniqueNames, DeployedPods;
    LaunchKeepsIndex(s.ix, s.pods, name, id, running);
    LaunchKeepsIndex(Rebuilt(s.file), s.pods, name, id, running);
    LaunchDeployed(s.pods, name, id, running);
    MisleadsNot(Added(s.ix, name, id), s.pods[id := Pod(name, running)]);
    WrittenIsLoaded(Added(s.ix, name, id), s.file, written);
  }

  // ---------- Runs ----------

  /** The manager starts a pod only directly after a removal of its name that succeeded. */
  ghost predicate Managed(steps: seq<Step>, i: nat)
    requires i < |steps|
  {
    steps[i].Launch? ==>
      i > 0 && steps[i - 1].Delete? && steps[i - 1].name == steps[i].name && steps[i - 1].written.Some?
  }

  ghost predicate IsRun(states: seq<Indexed>, steps: seq<Step>)
  {
    && |states| == |steps| + 1 && Safe(states[0])
    && forall i :: 0 <= i < |steps| ==>
         Managed(steps, i) && Possible(states[i], steps[i]) && states[i + 1] == Stepped(states[i], steps[i])
  }

  /** Over every run of the manager, however often the index file cannot be written and the process
      restarts with an old one, a removal finds the pod it is meant for and no other. */
  lemma {:induction false} RemovalsFindTheirPod(states: seq<Indexed>, steps: seq<Step>, i: nat)
    requires IsRun(states, steps) && i <= |steps|
    ensures Safe(states[i])
    ensures i > 0 && steps[i - 1].Delete? ==>
              && !Named(states[i].pods, steps[i - 1].name)
              && DeployedPods(states[i].pods) == DeployedPods(states[i - 1].pods) - {steps[i - 1].name}
    ensures i > 0 && steps[i - 1].Delete? && steps[i - 1].written.Some? ==> Free(states[i], steps[i - 1].name)
  {
    hide Safe, Possible, Stepped, Free, Named, DeployedPods;
    if i > 0 {
      RemovalsFindTheirPod(states, steps, i - 1);
      assert Managed(steps, i - 1);
      var s := states[i - 1];
      match steps[i - 1]
      case Delete(name, written) => DropKeepsSafe(s, name, written);
      case Launch(name, id, running, written) => LaunchKeepsSafe(s, name, id, running, written);
      case Reload => ReloadKeepsSafe(s);
    }
  }

  lemma ReloadKeepsSafe(s: Indexed)
    requires Safe(s)
    ensures Safe(Stepped(s, Reload))
  {
  }

  // ---------- In step ----------

  /** The index is one-to-one, without empty ids, and holds exactly the pods and their names. */
  ghost predicate InStep(ix: Index, pods: map<string, Pod>)
  {
    && Inverse(ix) && "" !in ix.idToName
    && ix.idToName.Keys == pods.Keys
    && forall id :: id in pods ==> ix.idToName[id] == pods[id].name
  }

  lemma IndexedIffNamed(ix: Index, pods: map<string, Pod>, name: string)
    requires InStep(ix, pods)
    ensures name in ix.nameToId <==> Named(pods, name)
  {
    if name in ix.nameToId {
      assert pods[ix.nameToId[name]].name == name;
    }
  }

  lemma DropKeepsStep(ix: Index, pods: map<string, Pod>, name: string)
    requires InStep(ix, pods)
    ensures InStep(Removed(ix, name), pods - Targets(ix, pods, name))
  {
    RemoveKeepsInverse(ix, name);
    IndexedIffNamed(ix, pods, name);
  }

  lemma LaunchKeepsStep(ix: Index, pods: map<string, Pod>, name: string, id: string, running: Running)
    requires InStep(ix, pods) && !Named(pods, name) && id !in pods && id != ""
    ensures InStep(Added(ix, name, id), pods[id := Pod(name, running)])
  {
    IndexedIffNamed(ix, pods, name);
    AddKeepsInverse(ix, name, id);
  }

  /** A restart keeps index and pods in step exactly when the file holds the index. */
  lemma RestartKeepsStepExactly(s: Indexed)
    requires InStep(s.ix, s.pods)
    ensures InStep(Stepped(s, Reload).ix, s.pods) <==> Rebuilt(s.file) == s.ix
  {
    if InStep(Rebuilt(s.file), s.pods) {
      var t := Rebuilt(s.file);
      assert t.idToName == s.ix.idToName;
      assert forall name :: name in t.nameToId <==> name in s.ix.nameToId;
      assert t.nameToId == s.ix.nameToId;
    }
  }

  /** And it holds the index after a removal or a start exactly when that was written, or had nothing
      to change: a removed name had no pod. */
  lemma FileHoldsIndexExactly(s: Indexed, step: Step)
    requires InStep(s.ix, s.pods) && s.pods.Keys <= s.given && Rebuilt(s.file) == s.ix
    requires !step.Reload? && Possible(s, step)
    ensures InStep(Stepped(s, step).ix, Stepped(s, step).pods)
    ensures Rebuilt(Stepped(s, step).file) == Stepped(s, step).ix <==>
            step.written.Some? || (step.Delete? && !Named(s.pods, step.name))
  {
    hide Rebuilt;
    IndexedIffNamed(s.ix, s.pods, step.name);
    match step
    case Delete(name, written) =>
      DropKeepsStep(s.ix, s.pods, name);
      WrittenIsLoaded(Removed(s.ix, name), s.file, written);
      assert name !in Removed(s.ix, name).nameToId;
      if name !in s.ix.nameToId {
        assert Removed(s.ix, name).idToName == s.ix.idToName && Removed(s.ix, name).nameToId == s.ix.nameToId;
      }
    case Launch(name, id, running, written) =>
      LaunchKeepsStep(s.ix, s.pods, name, id, running);
      WrittenIsLoaded(Added(s.ix, name, id), s.file, written);
      assert name in Added(s.ix, name, id).nameToId;
  }
}
