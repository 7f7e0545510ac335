/** A workload over many updates: whether it is up is decided by the last attempt to start it. */
module Attempts {
  import opened Paths
  import opened Pods
  import opened Wrapper
  import opened Reconcile

  /** An update, or a pod that disappears in between. */
  datatype Round =
    | Update(ws: seq<WorkloadSpec>, faults: nat -> Faults, listFails: bool, stale: string -> StaleFaults)
    | Vanish(name: string)

  ghost function NextWorld(x: World, r: Round): World
  {
    match r
    case Update(ws, faults, listFails, stale) =>
      if listFails then After(x, ws, faults, |ws|) else Updated(x, ws, faults, stale)
    case Vanish(name) =>
      x.(host := x.host.(deployed := x.host.deployed - {name}))
  }

  /** An update configures the workload, in its j-th place, and no other uses its directory. */
  ghost predicate Configures(x: World, r: Round, w: WorkloadSpec, j: nat)
  {
    r.Update? ==>
      && j < |r.ws| && r.ws[j] == w && DistinctDirs(r.ws)
      && StaleApart(r.ws, Stale(After(x, r.ws, r.faults, |r.ws|), Names(r.ws)))
  }

  /** The update finds the stored files different, and stores the manifest. */
  predicate Attempted(files: map<Path, string>, w: WorkloadSpec, f: Faults)
  {
    Prepared(f) && Modified(files, w) && !f.storeManifest
  }

  /** Nothing then fails until the pod is up. */
  predicate BroughtUp(y: World, w: WorkloadSpec, f: Faults)
  {
    && !AuthFails(y.files, w, f)
    && RemoveSucceeds(y.host, w.name, f.remove)
    && Starts(AfterRemove(y.host, w.name, f.remove), w.name, w.ports, f.run)
  }

  ghost predicate IsRun(worlds: seq<World>, rounds: seq<Round>, w: WorkloadSpec, places: seq<nat>)
  {
    && |worlds| == |rounds| + 1 == |places| + 1
    && (Runs(worlds[0].host, w) ==> !Modified(worlds[0].files, w))
    && forall i :: 0 <= i < |rounds| ==>
         Configures(worlds[i], rounds[i], w, places[i]) && worlds[i + 1] == NextWorld(worlds[i], rounds[i])
  }

  /** The last attempt brought the pod up, or it was up at the start, and it has not vanished since. */
  ghost predicate LastAttemptHolds(worlds: seq<World>, rounds: seq<Round>, w: WorkloadSpec, places: seq<nat>, i: nat)
    requires IsRun(worlds, rounds, w, places) && i <= |rounds|
  {
    if i == 0 then Runs(worlds[0].host, w)
    else
      var x, r, before := worlds[i - 1], rounds[i - 1], LastAttemptHolds(worlds, rounds, w, places, i - 1);
      match r
      case Vanish(name) => name != w.name && before
      case Update(ws, faults, _, _) =>
        assert Configures(x, r, w, places[i - 1]);
        var j := places[i - 1];
        if Attempted(x.files, w, faults(j)) then BroughtUp(After(x, ws, faults, j), w, faults(j)) else before
  }

  lemma AttemptDecides(y: World, w: WorkloadSpec, f: Faults)
    requires Runs(y.host, w) ==> !Modified(y.files, w)
    ensures var z := Applied(y, w, f);
            && (Runs(z.host, w) <==> if Attempted(y.files, w, f) then BroughtUp(y, w, f) else Runs(y.host, w))
            && (Runs(z.host, w) ==> !Modified(z.files, w))
  {
    if Restarts(y.files, w, f) {
      RestartStoresFiles(y.files, w, f);
    }
  }

  lemma PrunedKeepsFiles(y: World, ws: seq<WorkloadSpec>, stale: string -> StaleFaults, w: WorkloadSpec)
    requires w in ws && StaleApart(ws, Stale(y, Names(ws)))
    ensures Modified(Pruned(y, Stale(y, Names(ws)), stale).files, w) == Modified(y.files, w)
  {
  }

  lemma RoundDecides(x: World, r: Round, w: WorkloadSpec, j: nat)
    requires r.Update? && Configures(x, r, w, j) && (Runs(x.host, w) ==> !Modified(x.files, w))
    ensures var t, y := NextWorld(x, r), After(x, r.ws, r.faults, j);
            && (Runs(t.host, w) <==>
                if Attempted(x.files, w, r.faults(j)) then BroughtUp(y, w, r.faults(j)) else Runs(x.host, w))
            && (Runs(t.host, w) ==> !Modified(t.files, w))
  {
    hide Applied, Modified, Runs, Dir, Pruned, BroughtUp;
    var ws, faults := r.ws, r.faults;
    var last := After(x, ws, faults, |ws|);
    SameNameSameDir(ws, j);
    AfterKeepsFiles(x, ws, faults, 0, j, w);
    AfterKeepsRuns(x, ws, faults, 0, j, w);
    AttemptDecides(After(x, ws, faults, j), w, faults(j));
    AfterKeepsFiles(x, ws, faults, j + 1, |ws|, w);
    AfterKeepsRuns(x, ws, faults, j + 1, |ws|, w);
    PrunedKeepsFiles(last, ws, r.stale, w);
    PrunedKeepsConfigured(last, ws, r.stale, w);
  }

  lemma VanishDecides(x: World, name: string, w: WorkloadSpec)
    ensures Runs(NextWorld(x, Vanish(name)).host, w) <==> name != w.name && Runs(x.host, w)
    ensures NextWorld(x, Vanish(name)).files == x.files
  {
  }

  /** Over any sequence of updates, whatever fails in them, a configured workload is down exactly when
      the last attempt to start it failed, at storing its auth file, at Remove or at Run, or its pod
      vanished after it. And while it is up, its files match, so that it is skipped. */
  lemma {:induction false} DownExactlyAfterFailedAttempt(worlds: seq<World>, rounds: seq<Round>, w: WorkloadSpec,
                                                         places: seq<nat>, i: nat)
    requires IsRun(worlds, rounds, w, places) && i <= |rounds|
    ensures Runs(worlds[i].host, w) <==> LastAttemptHolds(worlds, rounds, w, places, i)
    ensures Runs(worlds[i].host, w) ==> !Modified(worlds[i].files, w)
  {
    hide Runs, Modified, NextWorld, BroughtUp, Attempted, After;
    if i > 0 {
      DownExactlyAfterFailedAttempt(worlds, rounds, w, places, i - 1);
      assert Configures(worlds[i - 1], rounds[i - 1], w, places[i - 1]);
      match rounds[i - 1]
      case Vanish(name) => VanishDecides(worlds[i - 1], name, w);
      case Update(_, _, _, _) => RoundDecides(worlds[i - 1], rounds[i - 1], w, places[i - 1]);
    }
  }
}
