/** The workload manager: drives the host to the configured state, one workload after another,
    and remembers what it could not do. */
module Manager {
  import opened Mapping
  import opened Options
  import opened Paths
  import opened Pods
  import opened Wrapper
  import opened Reconcile
  import Secrets

  /** The steps of a deregistration besides removing the pods. */
  datatype DeregisterStep =
    ListPods | DeleteWorkloadsDir | DeleteTable | DeleteVolumesDir | DeleteMappingFile | DeleteServicesFile

  lemma EveryStep(fails: DeregisterStep -> bool)
    ensures (forall step :: !fails(step)) <==>
            !(fails(ListPods) || fails(DeleteWorkloadsDir) || fails(DeleteTable) || fails(DeleteVolumesDir) ||
              fails(DeleteMappingFile) || fails(DeleteServicesFile))
  {
    forall step | !(fails(ListPods) || fails(DeleteWorkloadsDir) || fails(DeleteTable) || fails(DeleteVolumesDir) ||
                    fails(DeleteMappingFile) || fails(DeleteServicesFile))
      ensures !fails(step)
    {
      match step case ListPods => case DeleteWorkloadsDir => case DeleteTable => case DeleteVolumesDir =>
      case DeleteMappingFile => case DeleteServicesFile =>
    }
  }

  /** Every pod is removed as a stale one is, but no directory with it. */
  function PodsOnly(fails: string -> RemoveStep -> bool): string -> StaleFaults
  {
    n => StaleFaults(true, fails(n))
  }

  /** Of the workloads done, those removed in full are in neither index. */
  ghost predicate AreFree(s: Indexed, h: Host, done: set<string>, fails: string -> RemoveStep -> bool)
  {
    forall n :: n in done && RemoveSucceeds(h, n, fails(n)) ==> Free(s, n)
  }

  lemma NoneToFree(s: Indexed, h: Host, fails: string -> RemoveStep -> bool)
    ensures AreFree(s, h, {}, fails)
  {
  }

  lemma OneMoreFree(s: Indexed, t: Indexed, h: Host, done: set<string>, name: string, written: Option<seq<Entry>>,
                    gone: bool, fails: string -> RemoveStep -> bool)
    requires Safe(s) && AreFree(s, h, done, fails)
    requires gone ==> Possible(s, Delete(name, written))
    requires t == if gone then Stepped(s, Delete(name, written)) else s
    requires RemoveSucceeds(h, name, fails(name)) ==> Free(t, name)
    ensures AreFree(t, h, done + {name}, fails)
  {
    hide Safe, Free, Stepped, Possible, RemoveSucceeds;
    forall n | n in done + {name} && RemoveSucceeds(h, n, fails(n))
      ensures Free(t, n)
    {
      if n != name && gone {
        DropKeepsFree(s, name, written, n);
      }
    }
  }

  /** What is removed before makes no difference to a removal. */
  lemma PrunedAlike(x: World, done: set<string>, name: string, fails: string -> RemoveStep -> bool)
    requires name !in done
    ensures var h := Pruned(x, done, PodsOnly(fails)).host;
            && RemoveSucceeds(h, name, fails(name)) == RemoveSucceeds(x.host, name, fails(name))
            && PodGone(h, name, fails(name)) == PodGone(x.host, name, fails(name))
  {
    var h := Pruned(x, done, PodsOnly(fails)).host;
    assert name in h.services <==> name in x.host.services;
  }

  /** What is left when all pods are removed. */
  lemma AllPruned(x: World, fails: string -> RemoveStep -> bool)
    ensures var t := Pruned(x, x.host.deployed.Keys, PodsOnly(fails));
            && t.files == x.files
            && t.host.deployed.Keys == set n | n in x.host.deployed && !PodGone(x.host, n, fails(n))
            && ((forall n :: n in x.host.deployed ==> RemoveSucceeds(x.host, n, fails(n))) ==>
                  t.host.deployed == map[])
  {
    var t := Pruned(x, x.host.deployed.Keys, PodsOnly(fails));
    assert t.files == x.files;
  }

  class WorkloadManager {
    const workloads: Workload
    const secrets: Secrets.SecretStore
    var files: map<Path, string>
    var volumesDir: bool // whether it exists
    var eventsQueue: seq<string>
    var deregistered: bool
    ghost var calls: multiset<Call>

    ghost predicate Valid()
      reads this, workloads, workloads.mappingRepository
    {
      workloads.Valid()
    }

    ghost function State(): World
      reads this, workloads, workloads.mappingRepository
      requires Valid()
    {
      World(files, workloads.State(), calls, |eventsQueue|)
    }

    constructor ()
      ensures Valid() && fresh(workloads) && fresh(workloads.mappingRepository) && fresh(secrets)
      ensures State() == World(map[], Host(map[], {}, {}), multiset{}, 0) && volumesDir && !deregistered
    {
      workloads := new Workload();
      secrets := new Secrets.SecretStore();
      files, volumesDir, eventsQueue, deregistered, calls := map[], true, [], false, multiset{};
    }

    /** A restart, over the pods and files that are there. */
    constructor Resumed(host: Workload, files: map<Path, string>, secrets: map<string, string>)
      requires host.Valid()
      ensures Valid() && workloads == host && fresh(this.secrets) && this.secrets.secrets == secrets
      ensures State() == World(files, host.State(), multiset{}, 0) && !deregistered
    {
      workloads := host;
      this.secrets := new Secrets.SecretStore.Holding(secrets);
      this.files, volumesDir, eventsQueue, deregistered, calls := files, true, [], false, multiset{};
    }

    /** The names of the deployed pods. */
    method IndexWorkloads() returns (names: set<string>)
      requires Valid()
      ensures names == workloads.Deployed().Keys
    {
      hide Safe, DeployedPods, InfoNames, ListsPods;
      var infos := workloads.List();
      NoNames(infos);
      names := {};
      var i := 0;
      while i < |infos|
        invariant 0 <= i <= |infos|
        invariant names == InfoNames(infos, i)
      {
        InfoNamesOneMore(infos, i);
        names := names + {infos[i].name};
        i := i + 1;
      }
    }

    method PodConfigurationModified(w: WorkloadSpec) returns (modified: bool)
      ensures modified == Modified(files, w)
    {
      if ManifestPath(w.name) !in files || files[ManifestPath(w.name)] != w.manifest {
        return true;
      }
      if AuthPath(w.name) !in files {
        return w.auth != "";
      }
      return files[AuthPath(w.name)] != w.auth;
    }

    /** Brings the auth file to its expected content; a blank one is deleted. */
    method ManageAuthFile(w: WorkloadSpec, fails: bool) returns (ok: bool)
      modifies this`files
      ensures ok == !(fails && (w.auth != "" || AuthPath(w.name) in old(files)))
      ensures files == if ok then WithAuth(old(files), w) else old(files)
    {
      var path := AuthPath(w.name);
      if w.auth == "" {
        if path !in files {
          assert files - {path} == files;
          return true;
        }
        if fails {
          return false;
        }
        files := files - {path};
        return true;
      }
      if fails {
        return false;
      }
      files := files[path := w.auth];
      return true;
    }

    method UpdateWorkload(w: WorkloadSpec, f: Faults) returns (ok: bool)
      requires Valid()
      modifies this`files, this`eventsQueue, this`calls, workloads, workloads.mappingRepository
      ensures Valid()
      ensures State() == Applied(old(State()), w, f) && ok == Succeeds(old(State()), w, f)
    {
      hide Safe, DeployedPods, AfterRemove, AfterRun, RemoveSucceeds, RunSucceeds, Modified, Dir;
      if f.toPod || f.waits || f.mkdir || f.toYaml {
        return false;
      }
      var modified := PodConfigurationModified(w);
      if !modified {
        return true;
      }
      if f.storeManifest {
        return false;
      }
      files := files[ManifestPath(w.name) := w.manifest];
      ok := ManageAuthFile(w, f.storeAuth);
      if !ok {
        return false;
      }
      ok := RestartWorkload(w, f);
    }

    /** Replaces the pod by one started from the stored files. */
    method RestartWorkload(w: WorkloadSpec, f: Faults) returns (ok: bool)
      requires Valid()
      requires ManifestPath(w.name) in files && files[ManifestPath(w.name)] == w.manifest
      requires w.auth != "" ==> AuthPath(w.name) in files && files[AuthPath(w.name)] == w.auth
      modifies this`eventsQueue, this`calls, workloads, workloads.mappingRepository
      ensures Valid()
      ensures workloads.State() == Restarted(old(workloads.State()), w, f)
      ensures ok == RestartSucceeds(old(workloads.State()), w, f)
      ensures calls == old(calls) + (if RemoveSucceeds(old(workloads.State()), w.name, f.remove)
                                     then multiset{RemoveCall(w.name), RunCall(w.name)}
                                     else multiset{RemoveCall(w.name)})
      ensures eventsQueue ==
              if RemoveSucceeds(old(workloads.State()), w.name, f.remove) && !ok then old(eventsQueue) + ["Failed"]
              else old(eventsQueue)
    {
      hide Safe, DeployedPods, AfterRemove, AfterRun, RemoveSucceeds, RunSucceeds, Dir;
      calls := calls + multiset{RemoveCall(w.name)};
      ok := workloads.Remove(w.name, f.remove);
      if !ok {
        return false;
      }
      calls := calls + multiset{RunCall(w.name)};
      var auth := if w.auth == "" then "" else files[AuthPath(w.name)];
      ok := workloads.Run(w.name, w.ports, Running(files[ManifestPath(w.name)], auth), f.run);
      if !ok {
        eventsQueue := eventsQueue + ["Failed"];
      }
    }

    /** Removes what is deployed but not configured, in some order. */
    method RemoveStale(configured: set<string>, stale: string -> StaleFaults) returns (errors: nat)
      requires Valid()
      modifies this`files, this`calls, workloads, workloads.mappingRepository
      ensures Valid()
      ensures State() == Pruned(old(State()), Stale(old(State()), configured), stale)
      ensures errors == 0 <==>
              forall n :: n in Stale(old(State()), configured) ==> DropSucceeds(old(State()), n, stale(n))
    {
      hide Pruned, Dropped, AfterRemove, Safe, DeployedPods, DropSucceeds;
      var deployed := IndexWorkloads();
      var left := deployed - configured;
      ghost var x, done := State(), {};
      PrunedNothing(x, stale);
      errors := 0;
      while left != {}
        invariant Valid() && State() == Pruned(x, done, stale)
        invariant left + done == Stale(x, configured) && left !! done
        invariant errors == 0 <==> forall n :: n in done ==> DropSucceeds(x, n, stale(n))
        decreases left
      {
        var name :| name in left;
        var ok := DropWorkload(name, stale(name));
        if !ok {
          errors := errors + 1;
        }
        PrunedOneMore(x, done, name, stale);
        left, done := left - {name}, done + {name};
      }
    }

    method DropWorkload(name: string, f: StaleFaults) returns (ok: bool)
      requires Valid()
      modifies this`files, this`calls, workloads, workloads.mappingRepository
      ensures Valid()
      ensures State() == Dropped(old(State()), name, f) && ok == DropSucceeds(old(State()), name, f)
    {
      hide Safe, DeployedPods, AfterRemove, RemoveSucceeds, PodGone, Dir, Free, Stepped, Possible;
      if !f.deleteDir {
        files := files - {ManifestPath(name), AuthPath(name)};
      }
      calls := calls + multiset{RemoveCall(name)};
      var removed := workloads.Remove(name, f.remove);
      return removed && !f.deleteDir;
    }

    /** One update. Every failure is counted and the update goes on, except that without a list of
        the deployed pods nothing stale is removed. */
    method Update(ws: seq<WorkloadSpec>, faults: nat -> Faults, listFails: bool, stale: string -> StaleFaults,
                  configSecrets: seq<Secrets.Secret>, secretListFails: bool,
                  secretRemoveFails: nat -> bool, secretCreateFails: nat -> bool)
      returns (errors: nat, ghost secretOps: seq<Secrets.Operation>)
      requires Valid()
      modifies this`files, this`eventsQueue, this`calls, workloads, workloads.mappingRepository, secrets
      ensures Valid()
      ensures deregistered ==> State() == old(State()) && secrets.secrets == old(secrets.secrets) && errors == 0
      ensures !deregistered ==>
                State() == if listFails then After(old(State()), ws, faults, |ws|)
                           else Updated(old(State()), ws, faults, stale)
      ensures !deregistered ==> secrets.secrets == Secrets.PerformedAll(old(secrets.secrets), secretOps)
      ensures !deregistered && secretListFails ==> secretOps == []
      ensures !deregistered && !secretListFails && Secrets.DistinctNames(configSecrets) ==>
                Secrets.Reconciles(old(secrets.secrets), Secrets.Configured(configSecrets), secretOps)
      ensures !deregistered ==>
                (errors == 0 <==>
                 && !secretListFails && Secrets.Failures(secretOps) == 0
                 && !listFails && NothingFails(old(State()), ws, faults, stale))
      ensures !deregistered && errors == 0 && Secrets.DistinctNames(configSecrets) ==>
                secrets.secrets == Secrets.Configured(configSecrets)
    {
      secretOps := [];
      if deregistered {
        return 0, [];
      }
      hide Pruned, After, AllSucceed, Names, Safe, DeployedPods, Secrets.PerformedAll, Secrets.ConfiguredFirst,
        Secrets.Reconciles, Secrets.DistinctNames, Secrets.Failures;
      Secrets.PerformedNothing(secrets.secrets);
      errors, secretOps := secrets.UpdateSecrets(configSecrets, secretListFails, secretRemoveFails, secretCreateFails);
      if errors == 0 && Secrets.DistinctNames(configSecrets) {
        Secrets.NoFailures(secretOps);
        Secrets.AllSucceededEqualsConfig(old(secrets.secrets), Secrets.Configured(configSecrets), secretOps);
      }
      var workloadErrors, configuredWorkloadNameSet := UpdateWorkloads(ws, faults);
      errors := errors + workloadErrors;
      if listFails {
        errors := errors + 1;
        return;
      }
      var staleErrors := RemoveStale(configuredWorkloadNameSet, stale);
      errors := errors + staleErrors;
    }

    /** The configured workloads, in order; a failure does not keep the later ones back. */
    method UpdateWorkloads(ws: seq<WorkloadSpec>, faults: nat -> Faults)
      returns (errors: nat, configuredWorkloadNameSet: set<string>)
      requires Valid()
      modifies this`files, this`eventsQueue, this`calls, workloads, workloads.mappingRepository
      ensures Valid()
      ensures State() == After(old(State()), ws, faults, |ws|)
      ensures errors == 0 <==> AllSucceed(old(State()), ws, faults)
      ensures configuredWorkloadNameSet == Names(ws)
    {
      hide Applied, Succeeds, NamesFirst, After, Safe, DeployedPods;
      ghost var x := State();
      NoWorkloads(x, ws, faults);
      errors, configuredWorkloadNameSet := 0, {};
      var i := 0;
      while i < |ws|
        invariant 0 <= i <= |ws| && Valid()
        invariant State() == After(x, ws, faults, i)
        invariant configuredWorkloadNameSet == NamesFirst(ws, i)
        invariant errors == 0 <==> SucceedFirst(x, ws, faults, i)
      {
        NextWorkload(x, ws, faults, i);
        configuredWorkloadNameSet := configuredWorkloadNameSet + {ws[i].name};
        var ok := UpdateWorkload(ws[i], faults(i));
        if !ok {
          errors := errors + 1;
        }
        i := i + 1;
      }
    }

    /** Removes every workload and everything stored, as far as nothing fails; from then on updates do
        nothing. Every step is tried, whatever became of the others. The mapping file is gone, or
        lists no workload that was removed in full. */
    method Deregister(fails: string -> RemoveStep -> bool, stepFails: DeregisterStep -> bool) returns (errors: nat)
      requires Valid()
      modifies this`files, this`volumesDir, this`deregistered, this`calls, workloads, workloads.mappingRepository
      ensures Valid() && deregistered
      ensures files == if stepFails(DeleteWorkloadsDir) then old(files) else map[]
      ensures volumesDir == (stepFails(DeleteVolumesDir) && old(volumesDir))
      ensures var left := if stepFails(ListPods) then old(State()).host
                          else Pruned(old(State()), old(State()).host.deployed.Keys, PodsOnly(fails)).host;
              workloads.State() == if stepFails(DeleteTable) then left else left.(chains := {})
      ensures !stepFails(DeleteMappingFile) ==> workloads.mappingRepository.file == []
      ensures stepFails(DeleteMappingFile) && !stepFails(ListPods) ==>
                AreFree(workloads.Records(), old(State()).host, old(State()).host.deployed.Keys, fails)
      ensures stepFails(DeleteMappingFile) && stepFails(ListPods) ==> workloads.Records() == old(workloads.Records())
      ensures errors == 0 <==>
              && (forall step :: !stepFails(step))
              && forall n :: n in old(workloads.Deployed()) ==> RemoveSucceeds(old(workloads.State()), n, fails(n))
      ensures errors == 0 ==> workloads.Deployed() == map[]
    {
      hide DeployedPods, RemoveSucceeds, PodGone, Pruned, Safe, AreFree;
      AllPruned(State(), fails);
      errors := RemoveAllWorkloads(stepFails(ListPods), fails);
      var more := DeleteStored(stepFails);
      errors := errors + more;
      deregistered := true;
      EveryStep(stepFails);
    }

    /** The stored files, the firewall table and the volumes. */
    method DeleteStored(stepFails: DeregisterStep -> bool) returns (errors: nat)
      requires Valid()
      modifies this`files, this`volumesDir, workloads`chains, workloads.mappingRepository`file
      ensures Valid()
      ensures files == if stepFails(DeleteWorkloadsDir) then old(files) else map[]
      ensures volumesDir == (stepFails(DeleteVolumesDir) && old(volumesDir))
      ensures workloads.chains == if stepFails(DeleteTable) then old(workloads.chains) else {}
      ensures workloads.mappingRepository.file ==
              if stepFails(DeleteMappingFile) then old(workloads.mappingRepository.file) else []
      ensures errors == 0 <==>
              !(stepFails(DeleteWorkloadsDir) || stepFails(DeleteTable) || stepFails(DeleteVolumesDir) ||
                stepFails(DeleteMappingFile) || stepFails(DeleteServicesFile))
    {
      hide Safe;
      errors := 0;
      if stepFails(DeleteWorkloadsDir) {
        errors := errors + 1;
      } else {
        files := map[];
      }
      var ok := workloads.RemoveTable(stepFails(DeleteTable));
      if !ok {
        errors := errors + 1;
      }
      if stepFails(DeleteVolumesDir) {
        errors := errors + 1;
      } else {
        volumesDir := false;
      }
      ok := workloads.RemoveMappingFile(stepFails(DeleteMappingFile));
      if !ok {
        errors := errors + 1;
      }
      if stepFails(DeleteServicesFile) {
        errors := errors + 1;
      }
    }

    method RemoveAllWorkloads(listFails: bool, fails: string -> RemoveStep -> bool) returns (errors: nat)
      requires Valid()
      modifies this`calls, workloads`pods, workloads`services, workloads`chains, workloads.mappingRepository
      ensures Valid()
      ensures State() == if listFails then old(State())
                         else Pruned(old(State()), old(State()).host.deployed.Keys, PodsOnly(fails))
      ensures listFails ==> workloads.Records() == old(workloads.Records())
      ensures !listFails ==>
                AreFree(workloads.Records(), old(State()).host, old(State()).host.deployed.Keys, fails)
      ensures errors == 0 <==>
              && !listFails
              && forall n :: n in old(workloads.Deployed()) ==> RemoveSucceeds(old(workloads.State()), n, fails(n))
    {
      hide DeployedPods, AfterRemove, RemoveSucceeds, PodGone, Pruned, Safe, AreFree, Free;
      if listFails {
        return 1;
      }
      var left := IndexWorkloads();
      ghost var x, done := State(), {};
      PrunedNothing(x, PodsOnly(fails));
      NoneToFree(workloads.Records(), x.host, fails);
      errors := 0;
      while left != {}
        invariant Valid() && State() == Pruned(x, done, PodsOnly(fails))
        invariant left + done == x.host.deployed.Keys && left !! done
        invariant AreFree(workloads.Records(), x.host, done, fails)
        invariant errors == 0 <==> forall n :: n in done ==> RemoveSucceeds(x.host, n, fails(n))
        decreases left
      {
        var name :| name in left;
        var ok := RemoveOne(x, done, name, fails);
        if !ok {
          errors := errors + 1;
        }
        left, done := left - {name}, done + {name};
      }
    }

    /** Removes one pod after some others. */
    method RemoveOne(ghost x: World, ghost done: set<string>, name: string, fails: string -> RemoveStep -> bool)
      returns (ok: bool)
      requires Valid() && State() == Pruned(x, done, PodsOnly(fails)) && name !in done
      requires AreFree(workloads.Records(), x.host, done, fails)
      modifies this`calls, workloads`pods, workloads`services, workloads`chains, workloads.mappingRepository
      ensures Valid() && State() == Pruned(x, done + {name}, PodsOnly(fails))
      ensures AreFree(workloads.Records(), x.host, done + {name}, fails)
      ensures ok == RemoveSucceeds(x.host, name, fails(name))
    {
      hide DeployedPods, AfterRemove, RemoveSucceeds, PodGone, Pruned, Safe, AreFree, Free, Stepped;
      PrunedOneMore(x, done, name, PodsOnly(fails));
      ghost var s, h := workloads.Records(), workloads.State();
      PrunedAlike(x, done, name, fails);
      calls := calls + multiset{RemoveCall(name)};
      ok := workloads.Remove(name, fails(name));
      ghost var written := if fails(name)(RewriteMapping) then None else Some(workloads.mappingRepository.file);
      OneMoreFree(s, workloads.Records(), x.host, done, name, written, PodGone(h, name, fails(name)), fails);
    }
  }
}
