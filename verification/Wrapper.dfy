/** The workload wrapper: starts and removes pods together with their services, firewall chains
    and index entries. Pods, services and chains are abstract; every effect may fail. */
module Wrapper {
  import opened Fresh
  import opened Mapping
  import opened Options
  import opened Pods

  datatype PodInfo = PodInfo(id: string, name: string)

  datatype RunStep =
    CreateChain | AddRules | Play | WriteMapping | GenerateUnit | CreateService | WriteServices | Report

  datatype RemoveStep = DisableService | RemoveService | RemovePod | DeleteChain | RewriteMapping

  /** The host as the manager knows it: pods by workload name, services and chains. */
  datatype Host = Host(deployed: map<string, Running>, services: set<string>, chains: set<string>)

  predicate LegalPorts(ports: seq<int>)
  {
    forall p :: p in ports ==> 0 < p < 65536
  }

  /** The network part of a run succeeds. */
  predicate NetworkReady(ports: seq<int>, fails: RunStep -> bool)
  {
    LegalPorts(ports) && (ports == [] || (!fails(CreateChain) && !fails(AddRules)))
  }

  /** The pod comes up, whatever happens to its service afterwards. */
  predicate Starts(h: Host, name: string, ports: seq<int>, fails: RunStep -> bool)
  {
    NetworkReady(ports, fails) && !fails(Play) && name !in h.deployed
  }

  predicate RunSucceeds(h: Host, name: string, ports: seq<int>, fails: RunStep -> bool)
  {
    && Starts(h, name, ports, fails)
    && !fails(WriteMapping) && !fails(GenerateUnit) && !fails(CreateService) && !fails(WriteServices) && !fails(Report)
  }

  function AfterRun(h: Host, name: string, ports: seq<int>, running: Running, fails: RunStep -> bool): Host
  {
    Host(
      if Starts(h, name, ports, fails) then h.deployed[name := running] else h.deployed,
      if Starts(h, name, ports, fails) && !fails(WriteMapping) && !fails(GenerateUnit) && !fails(CreateService)
        then h.services + {name} else h.services,
      if LegalPorts(ports) && ports != [] && !fails(CreateChain) then h.chains + {name} else h.chains)
  }

  predicate ServiceGone(h: Host, name: string, fails: RemoveStep -> bool)
  {
    name in h.services ==> !fails(DisableService) && !fails(RemoveService)
  }

  /** The pod is gone, whatever happens to the index file afterwards. */
  predicate PodGone(h: Host, name: string, fails: RemoveStep -> bool)
  {
    ServiceGone(h, name, fails) && !fails(RemovePod)
  }

  predicate RemoveSucceeds(h: Host, name: string, fails: RemoveStep -> bool)
  {
    PodGone(h, name, fails) && !fails(RewriteMapping)
  }

  function AfterRemove(h: Host, name: string, fails: RemoveStep -> bool): Host
  {
    Host(
      if PodGone(h, name, fails) then h.deployed - {name} else h.deployed,
      if ServiceGone(h, name, fails) then h.services - {name} else h.services,
      if PodGone(h, name, fails) && !fails(DeleteChain) then h.chains - {name} else h.chains)
  }

  lemma RemoveIsLocal(h: Host, name: string, fails: RemoveStep -> bool)
    ensures AfterRemove(h, name, fails).deployed.Keys ==
            h.deployed.Keys - (if PodGone(h, name, fails) then {name} else {})
    ensures forall n :: n != name ==> (n in AfterRemove(h, name, fails).services <==> n in h.services)
  {
  }

  // ---------- What a run and a removal come to ----------

  /** After a run that succeeded the pod runs what it was started with, its service is there, and its
      chain when it has ports. Without a failing step it succeeds, unless a port is illegal or a pod of
      the name is there already. */
  lemma RunComesTo(h: Host, name: string, ports: seq<int>, running: Running, fails: RunStep -> bool)
    ensures var t := AfterRun(h, name, ports, running, fails);
            RunSucceeds(h, name, ports, fails) ==>
              && t.deployed == h.deployed[name := running] && t.services == h.services + {name}
              && t.chains == if ports == [] then h.chains else h.chains + {name}
    ensures (forall step :: !fails(step)) ==>
              (RunSucceeds(h, name, ports, fails) <==>
               name !in h.deployed && forall p :: p in ports ==> 0 < p < 65536)
  {
  }

  /** A chain is there once it was created for legal ports, and stays when the run fails after that. A
      pod comes up exactly when no port is illegal, no pod has its name, and neither its firewall
      rules, where it has ports, nor podman fail. It then has a service unless a step before that
      fails. */
  lemma FailedRunComesTo(h: Host, name: string, ports: seq<int>, running: Running, fails: RunStep -> bool)
    requires name !in h.deployed && name !in h.services && name !in h.chains
    ensures var t := AfterRun(h, name, ports, running, fails);
            && (name in t.chains <==>
                (forall p :: p in ports ==> 0 < p < 65536) && ports != [] && !fails(CreateChain))
            && (name in t.deployed <==>
                && (forall p :: p in ports ==> 0 < p < 65536)
                && (ports != [] ==> !fails(CreateChain) && !fails(AddRules))
                && !fails(Play))
            && (name in t.services <==>
                name in t.deployed && !fails(WriteMapping) && !fails(GenerateUnit) && !fails(CreateService))
            && (RunSucceeds(h, name, ports, fails) <==>
                name in t.services && !fails(WriteServices) && !fails(Report))
  {
  }

  /** After a removal that succeeded there is no pod and no service of the name, and no chain unless
      deleting it failed. Without a failing step it succeeds, also for a name that is not there. A
      service that cannot be removed keeps the pod. */
  lemma RemoveComesTo(h: Host, name: string, fails: RemoveStep -> bool)
    ensures var t := AfterRemove(h, name, fails);
            RemoveSucceeds(h, name, fails) ==>
              && t.deployed == h.deployed - {name} && t.services == h.services - {name}
              && t.chains == if fails(DeleteChain) then h.chains else h.chains - {name}
    ensures (forall step :: !fails(step)) ==> RemoveSucceeds(h, name, fails)
    ensures name in h.services && (fails(DisableService) || fails(RemoveService)) ==>
              AfterRemove(h, name, fails) == h && !RemoveSucceeds(h, name, fails)
    ensures !(name in h.services && (fails(DisableService) || fails(RemoveService))) ==>
              && AfterRemove(h, name, fails).services == h.services - {name}
              && (fails(RemovePod) ==>
                    AfterRemove(h, name, fails).deployed == h.deployed && !RemoveSucceeds(h, name, fails))
              && (!fails(RemovePod) ==> AfterRemove(h, name, fails).deployed == h.deployed - {name})
              && (!fails(RemovePod) ==> RemoveSucceeds(h, name, fails) == !fails(RewriteMapping))
  {
  }

  // ---------- Listing ----------

  /** The names of the first i pods listed. */
  function InfoNames(infos: seq<PodInfo>, i: nat): set<string>
    requires i <= |infos|
  {
    set k | 0 <= k < i :: infos[k].name
  }

  lemma NoNames(infos: seq<PodInfo>)
    ensures InfoNames(infos, 0) == {}
  {
  }

  lemma InfoNamesOneMore(infos: seq<PodInfo>, i: nat)
    requires i < |infos|
    ensures InfoNames(infos, i + 1) == InfoNames(infos, i) + {infos[i].name}
  {
  }

  /** Every pod once, with its name, in some order. */
  ghost predicate ListsPods(infos: seq<PodInfo>, pods: map<string, Pod>)
  {
    && (forall info :: info in infos ==> info.id in pods && info.name == pods[info.id].name)
    && (forall i, j :: 0 <= i < j < |infos| ==> infos[i].id != infos[j].id)
    && (forall id :: id in pods ==> PodInfo(id, pods[id].name) in infos)
  }

  lemma ListsOneMore(infos: seq<PodInfo>, pods: map<string, Pod>, left: set<string>, id: string)
    requires id in left && left <= pods.Keys && ListsPods(infos, pods - left)
    ensures ListsPods(infos + [PodInfo(id, pods[id].name)], pods - (left - {id}))
  {
    var more := infos + [PodInfo(id, pods[id].name)];
    forall i | 0 <= i < |infos|
      ensures infos[i].id != id
    {
      assert infos[i] in infos;
    }
    forall x | x in pods - (left - {id})
      ensures PodInfo(x, pods[x].name) in more
    {
      if x == id {
        assert more[|infos|] == PodInfo(x, pods[x].name);
      } else {
        assert x in pods - left && (pods - left)[x] == pods[x];
      }
    }
  }

  /** What the index says of a pod is its name, or nothing. */
  lemma IndexedUnderName(ix: Index, pods: map<string, Pod>, id: string)
    requires NeverMisleads(ix, pods) && id in pods
    ensures Lookup(ix.idToName, id) == "" || Lookup(ix.idToName, id) == pods[id].name
  {
  }

  lemma ListedNames(pods: map<string, Pod>, infos: seq<PodInfo>)
    requires UniqueNames(pods) && ListsPods(infos, pods)
    ensures forall i, j :: 0 <= i < j < |infos| ==> infos[i].name != infos[j].name
    ensures InfoNames(infos, |infos|) == DeployedPods(pods).Keys
  {
    forall i | 0 <= i < |infos|
      ensures infos[i].id in pods && infos[i].name == pods[infos[i].id].name
    {
      assert infos[i] in infos;
    }
    forall name
      ensures name in InfoNames(infos, |infos|) <==> name in DeployedPods(pods)
    {
      DeployedIffNamed(pods, name);
      if Named(pods, name) {
        var id :| id in pods && pods[id].name == name;
        assert PodInfo(id, name) in infos;
      }
    }
  }

  /** Podman takes an id or a pod name. */
  datatype PodKey = ById(id: string) | ByName(name: string)

  /** Podman is told the id in the index, or the name when there is none: no id is empty. */
  lemma IdOfSafe(s: Indexed, name: string)
    requires Safe(s)
    ensures Lookup(s.ix.nameToId, name) == "" <==> name !in s.ix.nameToId
  {
  }

  lemma FreeToAdd(s: Indexed, name: string, id: string)
    requires Safe(s) && Free(s, name) && id !in s.given
    ensures name !in s.ix.nameToId && id !in s.ix.idToName && Inverse(s.ix)
  {
  }

  lemma SafeIsLoadable(s: Indexed)
    requires Safe(s)
    ensures Inverse(s.ix) && "" !in s.ix.idToName && Inverse(Rebuilt(s.file))
  {
  }

  class Workload {
    const mappingRepository: MappingRepository
    var pods: map<string, Pod>
    var given: set<string>      // the ids podman ever gave
    var services: set<string>
    var chains: set<string>

    ghost function Records(): Indexed
      reads this, mappingRepository
    {
      Indexed(mappingRepository.Current(), pods, mappingRepository.file, given)
    }

    /** Neither the index nor its file misleads about the pods, but they may be out of date. */
    ghost predicate Valid()
      reads this, mappingRepository
    {
      mappingRepository.Valid() && Safe(Records())
    }

    ghost function Deployed(): map<string, Running>
      reads this
    {
      DeployedPods(pods)
    }

    ghost function State(): Host
      reads this
    {
      Host(Deployed(), services, chains)
    }

    constructor ()
      ensures Valid() && fresh(this) && fresh(mappingRepository)
      ensures State() == Host(map[], {}, {})
    {
      mappingRepository := new MappingRepository([]);
      pods, given, services, chains := map[], {}, {}, {};
      new;
      NothingIsSafe(mappingRepository.file);
    }

    /** A restart: what runs on the device goes on running, and the index is loaded from its file. */
    constructor Resumed(pods: map<string, Pod>, given: set<string>, services: set<string>, chains: set<string>,
                          file: seq<Entry>)
      requires Safe(Indexed(Rebuilt(file), pods, file, given))
      ensures Valid() && fresh(this) && fresh(mappingRepository)
      ensures Records() == Indexed(Rebuilt(file), pods, file, given)
      ensures State() == Host(DeployedPods(pods), services, chains)
    {
      mappingRepository := new MappingRepository(file);
      this.pods, this.given, this.services, this.chains := pods, given, services, chains;
    }

    /** Lists the pods under the names they are indexed by, or else under their own. */
    method List() returns (infos: seq<PodInfo>)
      requires Valid()
      ensures ListsPods(infos, pods)
      ensures forall i, j :: 0 <= i < j < |infos| ==> infos[i].name != infos[j].name
      ensures InfoNames(infos, |infos|) == Deployed().Keys
    {
      hide NeverMisleads, DeployedPods, Inverse, UniqueNames, Rebuilt;
      infos := PodmanList();
      ghost var listed := infos;
      var i := 0;
      while i < |infos|
        invariant 0 <= i <= |infos| && infos == listed
      {
        IndexedUnderName(mappingRepository.Current(), pods, infos[i].id);
        var mappedName := mappingRepository.GetName(infos[i].id);
        if mappedName != "" {
          infos := infos[i := infos[i].(name := mappedName)];
        }
        i := i + 1;
      }
      ListedNames(pods, infos);
    }

    /** What podman reports: every pod once, in some order. */
    method PodmanList() returns (infos: seq<PodInfo>)
      ensures ListsPods(infos, pods)
    {
      infos := [];
      var left := pods.Keys;
      assert pods - left == map[];
      while left != {}
        invariant left <= pods.Keys && ListsPods(infos, pods - left)
        decreases left
      {
        var id :| id in left;
        ListsOneMore(infos, pods, left, id);
        infos := infos + [PodInfo(id, pods[id].name)];
        left := left - {id};
      }
      assert pods - left == pods;
    }

    /** Removing an unknown pod is no error. */
    method PodmanRemove(key: PodKey, fails: bool) returns (ok: bool)
      modifies this`pods
      ensures ok == !fails
      ensures pods == if fails then old(pods)
                      else match key
                      case ById(id) => old(pods) - {id}
                      case ByName(name) => old(pods) - (set id | id in old(pods) && old(pods)[id].name == name)
    {
      if fails {
        return false;
      }
      match key {
        case ById(id) => pods := pods - {id};
        case ByName(name) => pods := pods - (set id | id in pods && pods[id].name == name);
      }
      return true;
    }

    /** Podman refuses a pod name that is in use, and gives a new pod an id it never gave before. */
    method PodmanRun(name: string, running: Running, fails: bool) returns (ok: bool, id: string)
      modifies this`pods, this`given
      ensures ok == (!fails && !Named(old(pods), name))
      ensures ok ==> id !in old(given) && id != "" && given == old(given) + {id}
      ensures ok ==> pods == old(pods)[id := Pod(name, running)]
      ensures !ok ==> pods == old(pods) && given == old(given)
    {
      id := "";
      if fails || Named(pods, name) {
        return false, "";
      }
      FreshString(given);
      id :| id !in given && id != "";
      pods, given := pods[id := Pod(name, running)], given + {id};
      return true, id;
    }

    /** Removes service, pod, chain and index entry of a workload. The pod is found also when the index
        is out of date. */
    method Remove(workloadName: string, fails: RemoveStep -> bool) returns (ok: bool)
      requires Valid()
      modifies this`pods, this`services, this`chains, mappingRepository
      ensures Valid()
      ensures State() == AfterRemove(old(State()), workloadName, fails)
      ensures ok == RemoveSucceeds(old(State()), workloadName, fails)
      ensures ok ==> Free(Records(), workloadName)
      ensures PodGone(old(State()), workloadName, fails) ==>
                Possible(old(Records()),
                         Delete(workloadName, if fails(RewriteMapping) then None else Some(mappingRepository.file)))
      ensures Records() ==
              if PodGone(old(State()), workloadName, fails) then
                Stepped(old(Records()),
                        Delete(workloadName, if fails(RewriteMapping) then None else Some(mappingRepository.file)))
              else old(Records())
    {
      hide NeverMisleads, DeployedPods, Rebuilt, UniqueNames, Safe, Free, Inverse, Named, Lists;
      ghost var s := Records();
      IdOfSafe(s, workloadName);
      var id := mappingRepository.GetId(workloadName);
      var key := ById(id);
      if id == "" {
        key := ByName(workloadName);
      }
      ok := RemoveSystemService(workloadName, fails);
      if !ok {
        return false;
      }
      ok := PodmanRemove(key, fails(RemovePod));
      if !ok {
        return false;
      }
      if !fails(DeleteChain) {
        chains := chains - {workloadName};
      }
      ok := mappingRepository.Remove(workloadName, !fails(RewriteMapping));
      DropKeepsSafe(s, workloadName, if fails(RewriteMapping) then None else Some(mappingRepository.file));
    }

    /** Removing the table removes the chains of all workloads. */
    method RemoveTable(fails: bool) returns (ok: bool)
      modifies this`chains
      ensures ok == !fails && chains == if ok then {} else old(chains)
    {
      if fails {
        return false;
      }
      chains := {};
      return true;
    }

    method RemoveMappingFile(fails: bool) returns (ok: bool)
      requires Valid()
      modifies mappingRepository`file
      ensures Valid() && ok == !fails
      ensures mappingRepository.file == if ok then [] else old(mappingRepository.file)
    {
      ForgottenFileIsSafe(Records());
      ok := mappingRepository.RemoveMappingFile(fails);
    }

    method RemoveSystemService(workloadName: string, fails: RemoveStep -> bool) returns (ok: bool)
      modifies this`services
      ensures ok == (workloadName in old(services) ==> !fails(DisableService) && !fails(RemoveService))
      ensures services == if ok then old(services) - {workloadName} else old(services)
    {
      if workloadName !in services {
        return true;
      }
      if fails(DisableService) || fails(RemoveService) {
        return false;
      }
      services := services - {workloadName};
      return true;
    }

    /** Starts the pod of a workload that was removed, and records and services it. */
    method Run(name: string, ports: seq<int>, running: Running, fails: RunStep -> bool) returns (ok: bool)
      requires Valid() && (name !in Deployed() ==> Free(Records(), name))
      modifies this`pods, this`given, this`services, this`chains, mappingRepository
      ensures Valid()
      ensures State() == AfterRun(old(State()), name, ports, running, fails)
      ensures ok == RunSucceeds(old(State()), name, ports, fails)
    {
      hide NeverMisleads, DeployedPods, Rebuilt, UniqueNames, Safe, Free, Inverse, Named, Lists;
      ok := ApplyNetworkConfiguration(name, ports, fails);
      if !ok {
        return false;
      }
      DeployedIffNamed(pods, name);
      ghost var s := Records();
      var id;
      ok, id := PodmanRun(name, running, fails(Play));
      if !ok {
        return false;
      }
      FreeToAdd(s, name, id);
      ok := mappingRepository.Add(name, id, !fails(WriteMapping));
      LaunchKeepsSafe(s, name, id, running, if fails(WriteMapping) then None else Some(mappingRepository.file));
      SafeIsLoadable(Records());
      if !ok {
        return false;
      }
      if fails(GenerateUnit) || fails(CreateService) {
        return false;
      }
      services := services + {name};
      return !fails(WriteServices) && !fails(Report);
    }

    method ApplyNetworkConfiguration(name: string, ports: seq<int>, fails: RunStep -> bool) returns (ok: bool)
      modifies this`chains
      ensures ok == NetworkReady(ports, fails)
      ensures chains ==
              if LegalPorts(ports) && ports != [] && !fails(CreateChain) then old(chains) + {name} else old(chains)
    {
      if exists p :: p in ports && !(0 < p < 65536) {
        return false;
      }
      if ports == [] {
        return true;
      }
      if fails(CreateChain) {
        return false;
      }
      chains := chains + {name};
      return !fails(AddRules);
    }
  }
}
