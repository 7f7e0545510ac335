/** What one update of the workload manager does to the stored files and to the host, as functions
    of the configuration and of the steps that fail, and what follows for any configuration. */
module Reconcile {
  import opened Paths
  import opened Pods
  import opened Wrapper

  /** A configured workload. The manifest is the YAML its specification renders to. */
  datatype WorkloadSpec = WorkloadSpec(name: string, manifest: string, auth: string, ports: seq<int>)

  datatype FileKind = Manifest | Auth

  datatype Path = Path(dir: string, kind: FileKind)

  /** The steps of handling one workload that fail, in order. */
  datatype Faults = Faults(
    toPod: bool,        // the specification does not parse
    waits: bool,        // a block device it needs is not mounted yet
    mkdir: bool,
    toYaml: bool,
    storeManifest: bool,
    storeAuth: bool,
    remove: RemoveStep -> bool,
    run: RunStep -> bool)

  datatype Call = RemoveCall(name: string) | RunCall(name: string)

  datatype World = World(files: map<Path, string>, host: Host, calls: multiset<Call>, events: nat)

  function ManifestPath(name: string): Path { Path(Dir(name), Manifest) }

  function AuthPath(name: string): Path { Path(Dir(name), Auth) }

  function Config(w: WorkloadSpec): Running { Running(w.manifest, w.auth) }

  // ---------- One workload ----------

  predicate PodModified(files: map<Path, string>, w: WorkloadSpec)
  {
    ManifestPath(w.name) !in files || files[ManifestPath(w.name)] != w.manifest
  }

  predicate AuthModified(files: map<Path, string>, w: WorkloadSpec)
  {
    if AuthPath(w.name) !in files then w.auth != "" else files[AuthPath(w.name)] != w.auth
  }

  predicate Modified(files: map<Path, string>, w: WorkloadSpec)
  {
    PodModified(files, w) || AuthModified(files, w)
  }

  predicate Prepared(f: Faults)
  {
    !f.toPod && !f.waits && !f.mkdir && !f.toYaml
  }

  /** Deleting an auth file that does not exist cannot fail. */
  predicate AuthFails(files: map<Path, string>, w: WorkloadSpec, f: Faults)
  {
    f.storeAuth && (w.auth != "" || AuthPath(w.name) in files)
  }

  function WithManifest(files: map<Path, string>, w: WorkloadSpec): map<Path, string>
  {
    files[ManifestPath(w.name) := w.manifest]
  }

  function WithAuth(files: map<Path, string>, w: WorkloadSpec): map<Path, string>
  {
    if w.auth == "" then files - {AuthPath(w.name)} else files[AuthPath(w.name) := w.auth]
  }

  function FilesAfter(files: map<Path, string>, w: WorkloadSpec, f: Faults): map<Path, string>
  {
    if !Prepared(f) || !Modified(files, w) || f.storeManifest then files
    else if AuthFails(files, w, f) then WithManifest(files, w)
    else WithAuth(WithManifest(files, w), w)
  }

  /** The workload is found modified and both its files are brought up to date. */
  predicate Restarts(files: map<Path, string>, w: WorkloadSpec, f: Faults)
  {
    Prepared(f) && Modified(files, w) && !f.storeManifest && !AuthFails(files, w, f)
  }

  function Restarted(h: Host, w: WorkloadSpec, f: Faults): Host
  {
    var removed := AfterRemove(h, w.name, f.remove);
    if RemoveSucceeds(h, w.name, f.remove) then AfterRun(removed, w.name, w.ports, Config(w), f.run) else removed
  }

  predicate RestartSucceeds(h: Host, w: WorkloadSpec, f: Faults)
  {
    && RemoveSucceeds(h, w.name, f.remove)
    && RunSucceeds(AfterRemove(h, w.name, f.remove), w.name, w.ports, f.run)
  }

  function Applied(x: World, w: WorkloadSpec, f: Faults): World
  {
    if !Restarts(x.files, w, f) then x.(files := FilesAfter(x.files, w, f))
    else
      World(
        FilesAfter(x.files, w, f),
        Restarted(x.host, w, f),
        x.calls + (if RemoveSucceeds(x.host, w.name, f.remove)
                   then multiset{RemoveCall(w.name), RunCall(w.name)} else multiset{RemoveCall(w.name)}),
        if RemoveSucceeds(x.host, w.name, f.remove) && !RestartSucceeds(x.host, w, f) then x.events + 1 else x.events)
  }

  predicate Succeeds(x: World, w: WorkloadSpec, f: Faults)
  {
    Prepared(f) && (Modified(x.files, w) ==> Restarts(x.files, w, f) && RestartSucceeds(x.host, w, f))
  }

  // ---------- All workloads ----------

  function After(x: World, ws: seq<WorkloadSpec>, faults: nat -> Faults, i: nat): World
    requires i <= |ws|
  {
    if i == 0 then x else Applied(After(x, ws, faults, i - 1), ws[i - 1], faults(i - 1))
  }

  function NamesFirst(ws: seq<WorkloadSpec>, i: nat): set<string>
    requires i <= |ws|
  {
    set k | 0 <= k < i :: ws[k].name
  }

  function Names(ws: seq<WorkloadSpec>): set<string>
  {
    NamesFirst(ws, |ws|)
  }

  lemma NoWorkloads(x: World, ws: seq<WorkloadSpec>, faults: nat -> Faults)
    ensures After(x, ws, faults, 0) == x && NamesFirst(ws, 0) == {}
  {
  }

  lemma NextWorkload(x: World, ws: seq<WorkloadSpec>, faults: nat -> Faults, i: nat)
    requires i < |ws|
    ensures After(x, ws, faults, i + 1) == Applied(After(x, ws, faults, i), ws[i], faults(i))
    ensures NamesFirst(ws, i + 1) == NamesFirst(ws, i) + {ws[i].name}
  {
    hide Applied;
  }

  /** Faults of removing one stale workload. */
  datatype StaleFaults = StaleFaults(deleteDir: bool, remove: RemoveStep -> bool)

  function Stale(x: World, names: set<string>): set<string>
  {
    x.host.deployed.Keys - names
  }

  /** One stale workload: its directory and then its pod are removed. */
  function Dropped(x: World, name: string, f: StaleFaults): World
  {
    World(
      if f.deleteDir then x.files else x.files - {ManifestPath(name), AuthPath(name)},
      AfterRemove(x.host, name, f.remove),
      x.calls + multiset{RemoveCall(name)},
      x.events)
  }

  predicate DropSucceeds(x: World, name: string, f: StaleFaults)
  {
    !f.deleteDir && RemoveSucceeds(x.host, name, f.remove)
  }

  /** The stale workloads done, in whatever order: the order makes no difference. */
  ghost function Pruned(x: World, done: set<string>, faults: string -> StaleFaults): World
  {
    var h := x.host;
    World(
      map p | p in x.files && !(exists n :: n in done && !faults(n).deleteDir && Dir(n) == p.dir) :: x.files[p],
      Host(
        map n | n in h.deployed && !(n in done && PodGone(h, n, faults(n).remove)) :: h.deployed[n],
        h.services - (set n | n in done && ServiceGone(h, n, faults(n).remove)),
        h.chains - (set n | n in done && PodGone(h, n, faults(n).remove) && !faults(n).remove(DeleteChain))),
      x.calls + multiset(set n | n in done :: RemoveCall(n)),
      x.events)
  }

  lemma PrunedNothing(x: World, faults: string -> StaleFaults)
    ensures Pruned(x, {}, faults) == x
  {
    var t := Pruned(x, {}, faults);
    assert t.files == x.files && t.host.deployed == x.host.deployed;
    assert t.calls == x.calls by {
      assert (set n: string | n in {} :: RemoveCall(n)) == {};
    }
  }

  lemma PrunedOneMore(x: World, done: set<string>, name: string, faults: string -> StaleFaults)
    requires name !in done
    ensures Dropped(Pruned(x, done, faults), name, faults(name)) == Pruned(x, done + {name}, faults)
    ensures DropSucceeds(Pruned(x, done, faults), name, faults(name)) == DropSucceeds(x, name, faults(name))
  {
    var s, t := Dropped(Pruned(x, done, faults), name, faults(name)), Pruned(x, done + {name}, faults);
    PrunedFiles(x, done, name, faults);
    PrunedHost(x, done, name, faults);
    assert (set n | n in done + {name} :: RemoveCall(n)) == (set n | n in done :: RemoveCall(n)) + {RemoveCall(name)};
    assert s.calls == t.calls;
  }

  lemma PrunedFiles(x: World, done: set<string>, name: string, faults: string -> StaleFaults)
    ensures Dropped(Pruned(x, done, faults), name, faults(name)).files == Pruned(x, done + {name}, faults).files
  {
    var s, t := Dropped(Pruned(x, done, faults), name, faults(name)).files, Pruned(x, done + {name}, faults).files;
    forall p
      ensures p in s <==> p in t
    {
      if !faults(name).deleteDir && p.dir == Dir(name) {
        assert p == Path(Dir(name), Manifest) || p == Path(Dir(name), Auth) by {
          match p.kind case Manifest => case Auth =>
        }
        assert name in done + {name};
      }
    }
  }

  lemma PrunedHost(x: World, done: set<string>, name: string, faults: string -> StaleFaults)
    requires name !in done
    ensures Dropped(Pruned(x, done, faults), name, faults(name)).host == Pruned(x, done + {name}, faults).host
    ensures DropSucceeds(Pruned(x, done, faults), name, faults(name)) == DropSucceeds(x, name, faults(name))
  {
    var y, t := Pruned(x, done, faults).host, Pruned(x, done + {name}, faults).host;
    var f := faults(name).remove;
    assert ServiceGone(y, name, f) == ServiceGone(x.host, name, f);
    var s := AfterRemove(y, name, f);
    assert s.deployed == t.deployed;
    assert s.services == t.services;
    assert s.chains == t.chains;
  }

  // ---------- Distinctness ----------

  predicate DistinctDirs(ws: seq<WorkloadSpec>)
  {
    forall i, j :: 0 <= i < j < |ws| ==> Dir(ws[i].name) != Dir(ws[j].name)
  }

  lemma AppliedFiles(x: World, w: WorkloadSpec, f: Faults)
    ensures Applied(x, w, f).files == FilesAfter(x.files, w, f)
  {
  }

  lemma OtherFilesStay(files: map<Path, string>, w: WorkloadSpec, f: Faults, v: WorkloadSpec)
    requires Dir(w.name) != Dir(v.name)
    ensures Modified(FilesAfter(files, w, f), v) == Modified(files, v)
  {
  }

  /** Handling a workload whose restart is reached leaves its files as configured. */
  lemma RestartStoresFiles(files: map<Path, string>, w: WorkloadSpec, f: Faults)
    requires Restarts(files, w, f)
    ensures !Modified(FilesAfter(files, w, f), w)
  {
  }

  /** A modified workload is tried again by the next update exactly when this one failed before
      its manifest was stored, or when storing an auth file that differed failed. A failed Remove
      or Run is not retried, because by then the stored files already match the configuration;
      neither is a failure to store an auth file again that had not changed. */
  lemma RetriedExactlyIfFilesDiffer(x: World, w: WorkloadSpec, f: Faults)
    requires Modified(x.files, w)
    ensures Modified(Applied(x, w, f).files, w) <==>
            !Prepared(f) || f.storeManifest || (AuthFails(x.files, w, f) && AuthModified(x.files, w))
    ensures Restarts(x.files, w, f) ==> !Modified(Applied(x, w, f).files, w)
  {
    if Restarts(x.files, w, f) {
      RestartStoresFiles(x.files, w, f);
    }
  }

  /** The unconditional claim fails: a pod whose Run failed once is never run again. */
  lemma FailedRunIsNotRetried(x: World, w: WorkloadSpec, f: Faults, g: Faults)
    requires Restarts(x.files, w, f) && !Runs(Applied(x, w, f).host, w)
    ensures var y := Applied(x, w, f);
            Applied(y, w, g) == y && !Runs(Applied(y, w, g).host, w)
    ensures Prepared(g) ==> Succeeds(Applied(x, w, f), w, g)
  {
    RestartStoresFiles(x.files, w, f);
  }

  // ---------- What an update leaves running ----------

  /** The pod of the workload runs its manifest with its auth. */
  ghost predicate Runs(h: Host, w: WorkloadSpec)
  {
    && w.name in h.deployed
    && h.deployed[w.name].manifest == w.manifest && h.deployed[w.name].auth == w.auth
  }

  /** One workload, handled without a failure, ends up running its configuration exactly when it
      was found modified or was running it already. */
  lemma AppliedRuns(x: World, w: WorkloadSpec, f: Faults)
    requires Succeeds(x, w, f)
    ensures Runs(Applied(x, w, f).host, w) <==> Modified(x.files, w) || Runs(x.host, w)
    ensures !Modified(Applied(x, w, f).files, w)
  {
    if Modified(x.files, w) {
      RestartStoresFiles(x.files, w, f);
    }
  }

  /** A modified workload that is handled without a failure runs the manifest as its manifest and the
      auth as its auth, with a service, and with a chain when it has ports. */
  lemma HandledRunsItsFiles(x: World, w: WorkloadSpec, f: Faults)
    requires Succeeds(x, w, f) && Modified(x.files, w)
    ensures var h := Applied(x, w, f).host;
            && w.name in h.deployed && h.deployed[w.name].manifest == w.manifest && h.deployed[w.name].auth == w.auth
            && w.name in h.services && (w.ports != [] ==> w.name in h.chains)
  {
    AppliedRuns(x, w, f);
  }

  /** The stored files are as configured: the manifest is there, and the auth, or no auth when there
      is none. */
  ghost predicate StoredAs(files: map<Path, string>, w: WorkloadSpec)
  {
    && Path(Dir(w.name), Manifest) in files && files[Path(Dir(w.name), Manifest)] == w.manifest
    && (w.auth != "" ==> Path(Dir(w.name), Auth) in files)
    && (Path(Dir(w.name), Auth) in files ==> files[Path(Dir(w.name), Auth)] == w.auth)
  }

  /** A workload counts as modified exactly when its stored files are not as configured. */
  lemma ModifiedExactly(files: map<Path, string>, w: WorkloadSpec)
    ensures Modified(files, w) <==> !StoredAs(files, w)
  {
  }

  /** A workload whose specification does not parse, that waits for a mount, or whose directory or
      manifest cannot be made, is left alone, and counts as failed. */
  lemma UnpreparedIsLeftAlone(x: World, w: WorkloadSpec, f: Faults)
    requires f.toPod || f.waits || f.mkdir || f.toYaml
    ensures Applied(x, w, f) == x && !Succeeds(x, w, f)
  {
  }

  /** So is one whose manifest cannot be stored; when only the auth file cannot be, the manifest is
      stored and the pod stays as it is. */
  lemma UnstoredIsNotRestarted(x: World, w: WorkloadSpec, f: Faults)
    requires Modified(x.files, w) && !(f.toPod || f.waits || f.mkdir || f.toYaml)
    ensures f.storeManifest ==> Applied(x, w, f) == x && !Succeeds(x, w, f)
    ensures !f.storeManifest && f.storeAuth && w.auth != "" ==>
              && Applied(x, w, f) == x.(files := x.files[Path(Dir(w.name), Manifest) := w.manifest])
              && !Succeeds(x, w, f)
    ensures w.auth == "" && Path(Dir(w.name), Auth) in x.files && !f.storeManifest && f.storeAuth ==>
              Applied(x, w, f) == x.(files := x.files[Path(Dir(w.name), Manifest) := w.manifest])
  {
  }

  /** But an auth file that is to be deleted and is not there makes nothing fail. */
  lemma MissingAuthFileIsNoFailure(x: World, w: WorkloadSpec, f: Faults)
    requires w.auth == "" && Path(Dir(w.name), Auth) !in x.files
    ensures Applied(x, w, f) == Applied(x, w, f.(storeAuth := false))
    ensures Succeeds(x, w, f) == Succeeds(x, w, f.(storeAuth := false))
  {
  }

  /** An event is queued exactly for a pod that was removed and could not be run, and Run is called
      exactly after a Remove that succeeded. */
  lemma EventExactlyForFailedRun(x: World, w: WorkloadSpec, f: Faults)
    ensures var y := Applied(x, w, f);
            && x.events <= y.events <= x.events + 1
            && (y.events == x.events + 1 <==>
                y.calls == x.calls + multiset{RemoveCall(w.name), RunCall(w.name)} && !Succeeds(x, w, f))
            && (y.calls == x.calls + multiset{RemoveCall(w.name), RunCall(w.name)} <==>
                Restarts(x.files, w, f) && RemoveSucceeds(x.host, w.name, f.remove))
            && (y.calls == x.calls <==> !Restarts(x.files, w, f))
  {
    hide AfterRun, AfterRemove, Modified;
    var both, one := multiset{RemoveCall(w.name), RunCall(w.name)}, multiset{RemoveCall(w.name)};
    assert |x.calls + both| == |x.calls| + 2 && |x.calls + one| == |x.calls| + 1;
  }

  /** Nothing fails of its own. */
  const NO_FAULTS := Faults(false, false, false, false, false, false, _ => false, _ => false)

  /** With legal ports and no failing step every workload is handled without a failure. */
  lemma WithoutFaultsSucceeds(x: World, w: WorkloadSpec)
    requires forall p :: p in w.ports ==> 0 < p < 65536
    ensures Succeeds(x, w, NO_FAULTS)
  {
  }

  lemma AppliedKeepsOthers(x: World, w: WorkloadSpec, f: Faults, name: string)
    requires name != w.name
    ensures name in Applied(x, w, f).host.deployed <==> name in x.host.deployed
    ensures name in x.host.deployed ==> Applied(x, w, f).host.deployed[name] == x.host.deployed[name]
  {
  }

  lemma {:induction false} AfterKeepsOthers(x: World, ws: seq<WorkloadSpec>, faults: nat -> Faults,
                                            i: nat, j: nat, name: string)
    requires i <= j <= |ws| && forall k :: i <= k < j ==> ws[k].name != name
    ensures var a, b := After(x, ws, faults, i).host.deployed, After(x, ws, faults, j).host.deployed;
            (name in a <==> name in b) && (name in a ==> a[name] == b[name])
    decreases j
  {
    hide Applied;
    if i < j {
      AfterKeepsOthers(x, ws, faults, i, j - 1, name);
      AppliedKeepsOthers(After(x, ws, faults, j - 1), ws[j - 1], faults(j - 1), name);
    }
  }

  lemma {:induction false} AfterKeepsFiles(x: World, ws: seq<WorkloadSpec>, faults: nat -> Faults,
                                           i: nat, j: nat, v: WorkloadSpec)
    requires i <= j <= |ws| && forall k :: i <= k < j ==> Dir(ws[k].name) != Dir(v.name)
    ensures Modified(After(x, ws, faults, i).files, v) == Modified(After(x, ws, faults, j).files, v)
    decreases j
  {
    hide Modified, Applied, FilesAfter;
    if i < j {
      AfterKeepsFiles(x, ws, faults, i, j - 1, v);
      AppliedFiles(After(x, ws, faults, j - 1), ws[j - 1], faults(j - 1));
      OtherFilesStay(After(x, ws, faults, j - 1).files, ws[j - 1], faults(j - 1), v);
    }
  }

  /** Every step of the update succeeded. */
  predicate SucceedFirst(x: World, ws: seq<WorkloadSpec>, faults: nat -> Faults, n: nat)
    requires n <= |ws|
  {
    n == 0 || (SucceedFirst(x, ws, faults, n - 1) && Succeeds(After(x, ws, faults, n - 1), ws[n - 1], faults(n - 1)))
  }

  predicate AllSucceed(x: World, ws: seq<WorkloadSpec>, faults: nat -> Faults)
  {
    SucceedFirst(x, ws, faults, |ws|)
  }

  lemma {:induction false} SucceedsAt(x: World, ws: seq<WorkloadSpec>, faults: nat -> Faults, n: nat, i: nat)
    requires i < n <= |ws| && SucceedFirst(x, ws, faults, n)
    ensures Succeeds(After(x, ws, faults, i), ws[i], faults(i))
  {
    hide Succeeds, After;
    if i < n - 1 {
      SucceedsAt(x, ws, faults, n - 1, i);
    }
  }

  /** Convergence, exactly: after an update without a failure a configured workload runs its
      configured manifest and auth if and only if its stored files differed before, or it was
      already running them. */
  lemma ConvergesExactly(x: World, ws: seq<WorkloadSpec>, faults: nat -> Faults, i: nat)
    requires DistinctDirs(ws) && AllSucceed(x, ws, faults) && i < |ws|
    ensures Runs(After(x, ws, faults, |ws|).host, ws[i]) <==> Modified(x.files, ws[i]) || Runs(x.host, ws[i])
    ensures !Modified(After(x, ws, faults, |ws|).files, ws[i])
  {
    hide Applied, Modified, Succeeds, Runs, Dir;
    var w := ws[i];
    SucceedsAt(x, ws, faults, |ws|, i);
    SameNameSameDir(ws, i);
    AfterKeepsFiles(x, ws, faults, 0, i, w);
    AfterKeepsRuns(x, ws, faults, 0, i, w);
    AppliedRuns(After(x, ws, faults, i), w, faults(i));
    AfterKeepsFiles(x, ws, faults, i + 1, |ws|, w);
    AfterKeepsRuns(x, ws, faults, i + 1, |ws|, w);
  }

  lemma SameNameSameDir(ws: seq<WorkloadSpec>, i: nat)
    requires DistinctDirs(ws) && i < |ws|
    ensures forall k :: 0 <= k < |ws| && k != i ==> Dir(ws[k].name) != Dir(ws[i].name) && ws[k].name != ws[i].name
  {
  }

  lemma AfterKeepsRuns(x: World, ws: seq<WorkloadSpec>, faults: nat -> Faults, i: nat, j: nat, w: WorkloadSpec)
    requires i <= j <= |ws| && forall k :: i <= k < j ==> ws[k].name != w.name
    ensures Runs(After(x, ws, faults, i).host, w) == Runs(After(x, ws, faults, j).host, w)
  {
    hide After;
    AfterKeepsOthers(x, ws, faults, i, j, w.name);
  }

  // ---------- The whole update ----------

  ghost function Updated(x: World, ws: seq<WorkloadSpec>, faults: nat -> Faults, stale: string -> StaleFaults): World
  {
    var y := After(x, ws, faults, |ws|);
    Pruned(y, Stale(y, Names(ws)), stale)
  }

  ghost predicate NothingFails(x: World, ws: seq<WorkloadSpec>, faults: nat -> Faults, stale: string -> StaleFaults)
  {
    && AllSucceed(x, ws, faults)
    && var y := After(x, ws, faults, |ws|);
       forall n :: n in Stale(y, Names(ws)) ==> DropSucceeds(y, n, stale(n))
  }

  /** Every configured workload whose stored files match its configuration is running it. */
  ghost predicate Consistent(x: World, ws: seq<WorkloadSpec>)
  {
    forall w :: w in ws && !Modified(x.files, w) ==> Runs(x.host, w)
  }

  /** The host runs exactly the configured workloads, each as configured. */
  ghost predicate Matches(h: Host, ws: seq<WorkloadSpec>)
  {
    h.deployed.Keys == Names(ws) && forall w :: w in ws ==> Runs(h, w)
  }

  lemma PrunedKeepsConfigured(y: World, ws: seq<WorkloadSpec>, stale: string -> StaleFaults, w: WorkloadSpec)
    requires w in ws
    ensures Runs(Pruned(y, Stale(y, Names(ws)), stale).host, w) <==> Runs(y.host, w)
  {
    assert w.name in Names(ws);
  }

  /** An update in which nothing fails leaves exactly the configured workloads running as configured
      if and only if every workload it skipped, because its stored files matched, was running. */
  lemma UpdateConverges(x: World, ws: seq<WorkloadSpec>, faults: nat -> Faults, stale: string -> StaleFaults)
    requires DistinctDirs(ws) && NothingFails(x, ws, faults, stale)
    ensures Matches(Updated(x, ws, faults, stale).host, ws) <==> Consistent(x, ws)
  {
    hide Pruned, After, AllSucceed, Modified;
    var y, z := After(x, ws, faults, |ws|), Updated(x, ws, faults, stale);
    forall w | w in ws
      ensures Runs(z.host, w) <==> Modified(x.files, w) || Runs(x.host, w)
    {
      var i :| 0 <= i < |ws| && ws[i] == w;
      ConvergesExactly(x, ws, faults, i);
      PrunedKeepsConfigured(y, ws, stale, w);
    }
    OnlyConfiguredLeft(y, ws, stale);
    if Consistent(x, ws) {
      assert forall n :: n in Names(ws) ==> exists w :: w in ws && w.name == n && Runs(z.host, w);
    }
  }

  /** Such an update need not converge: here the manifest of "a" is stored, its pod is gone, and an
      update in which nothing fails leaves it so. */
  lemma UpdateNeedNotConverge()
    ensures exists x, ws, faults, stale ::
              DistinctDirs(ws) && NothingFails(x, ws, faults, stale) && !Matches(Updated(x, ws, faults, stale).host, ws)
  {
    var w := WorkloadSpec("a", "manifest", "", []);
    var x := World(map[ManifestPath("a") := "manifest"], Host(map[], {}, {}), multiset{}, 0);
    var f := Faults(false, false, false, false, false, false, _ => false, _ => false);
    var faults: nat -> Faults := _ => f;
    var stale: string -> StaleFaults := _ => StaleFaults(false, _ => false);
    assert !Modified(x.files, w) && Prepared(faults(0));
    hide *;
    SkippedStaysDown(x, w, faults, stale);
  }

  /** A single workload whose files are stored but which is not deployed stays down. */
  lemma SkippedStaysDown(x: World, w: WorkloadSpec, faults: nat -> Faults, stale: string -> StaleFaults)
    requires !Modified(x.files, w) && Prepared(faults(0)) && x.host.deployed == map[]
    ensures DistinctDirs([w]) && NothingFails(x, [w], faults, stale)
    ensures !Matches(Updated(x, [w], faults, stale).host, [w])
  {
    hide Modified, Applied, Pruned;
    SettledStays(x, [w], faults, 0);
    SettledStays(x, [w], faults, 1);
    assert SucceedFirst(x, [w], faults, 0);
    assert Stale(x, Names([w])) == {};
    PrunedNothing(x, stale);
    assert w in [w] && !Runs(x.host, w);
  }

  lemma OnlyConfiguredLeft(y: World, ws: seq<WorkloadSpec>, stale: string -> StaleFaults)
    requires forall n :: n in Stale(y, Names(ws)) ==> DropSucceeds(y, n, stale(n))
    ensures Pruned(y, Stale(y, Names(ws)), stale).host.deployed.Keys <= Names(ws)
  {
  }

  /** No stale name shares a directory with a configured workload. */
  ghost predicate StaleApart(ws: seq<WorkloadSpec>, stale: set<string>)
  {
    forall n, w :: n in stale && w in ws ==> Dir(n) != Dir(w.name)
  }

  /** The stored files match too, unless a stale workload shares a directory with a configured one. */
  lemma UpdateStoresFiles(x: World, ws: seq<WorkloadSpec>, faults: nat -> Faults, stale: string -> StaleFaults)
    requires DistinctDirs(ws) && NothingFails(x, ws, faults, stale)
    requires StaleApart(ws, Stale(After(x, ws, faults, |ws|), Names(ws)))
    ensures forall w :: w in ws ==>
              !Modified(Updated(x, ws, faults, stale).files, w) && StoredAs(Updated(x, ws, faults, stale).files, w)
  {
    hide After, AllSucceed, StoredAs;
    forall w | w in ws
      ensures !Modified(Updated(x, ws, faults, stale).files, w)
      ensures StoredAs(Updated(x, ws, faults, stale).files, w)
    {
      var i :| 0 <= i < |ws| && ws[i] == w;
      ConvergesExactly(x, ws, faults, i);
      ModifiedExactly(Updated(x, ws, faults, stale).files, w);
    }
  }

  /** Of a stale workload that was dropped no file, pod or service is left. */
  lemma NothingStaleLeft(x: World, ws: seq<WorkloadSpec>, faults: nat -> Faults, stale: string -> StaleFaults,
                         n: string)
    requires NothingFails(x, ws, faults, stale)
    requires n in x.host.deployed && n !in Names(ws)
    ensures var y := Updated(x, ws, faults, stale);
            && Path(Dir(n), Manifest) !in y.files && Path(Dir(n), Auth) !in y.files
            && n !in y.host.deployed && n !in y.host.services
  {
    hide After, AllSucceed;
    var first := After(x, ws, faults, |ws|);
    assert forall k :: 0 <= k < |ws| ==> ws[k].name in Names(ws);
    AfterKeepsOthers(x, ws, faults, 0, |ws|, n);
    assert After(x, ws, faults, 0) == x by { NoWorkloads(x, ws, faults); }
    assert n in Stale(first, Names(ws)) && DropSucceeds(first, n, stale(n));
  }

  /** An update in which no step fails, with legal ports, has no failure. */
  lemma {:induction false} WithoutFaultsAllSucceed(x: World, ws: seq<WorkloadSpec>, n: nat)
    requires n <= |ws| && forall w, p :: w in ws && p in w.ports ==> 0 < p < 65536
    ensures SucceedFirst(x, ws, _ => NO_FAULTS, n)
  {
    hide Succeeds, After;
    if n > 0 {
      WithoutFaultsAllSucceed(x, ws, n - 1);
      assert ws[n - 1] in ws;
      WithoutFaultsSucceeds(After(x, ws, _ => NO_FAULTS, n - 1), ws[n - 1]);
    }
  }

  lemma WithoutFaultsNothingFails(x: World, ws: seq<WorkloadSpec>)
    requires forall w, p :: w in ws && p in w.ports ==> 0 < p < 65536
    ensures NothingFails(x, ws, _ => NO_FAULTS, _ => StaleFaults(false, _ => false))
  {
    hide After, SucceedFirst;
    WithoutFaultsAllSucceed(x, ws, |ws|);
  }

  /** A configuration that is running and stored is left alone, whatever would fail: nothing is
      run, removed or written. */
  lemma {:induction false} SettledStays(x: World, ws: seq<WorkloadSpec>, faults: nat -> Faults, i: nat)
    requires i <= |ws| && forall w :: w in ws ==> !Modified(x.files, w)
    ensures After(x, ws, faults, i) == x
  {
    hide Modified;
    if i > 0 {
      SettledStays(x, ws, faults, i - 1);
      assert ws[i - 1] in ws;
    }
  }

  lemma UpdateIsIdempotent(x: World, ws: seq<WorkloadSpec>, faults: nat -> Faults, stale: string -> StaleFaults)
    requires Matches(x.host, ws) && forall w :: w in ws ==> !Modified(x.files, w)
    ensures Updated(x, ws, faults, stale) == x
  {
    SettledStays(x, ws, faults, |ws|);
    assert Stale(x, Names(ws)) == {};
    PrunedNothing(x, stale);
  }

  /** Two updates with one configuration from a consistent world, the first without a failure: the
      host then runs the configuration and the second changes and calls nothing. */
  lemma UpdateTwice(x: World, ws: seq<WorkloadSpec>, faults: nat -> Faults, stale: string -> StaleFaults,
                    again: nat -> Faults, staleAgain: string -> StaleFaults)
    requires DistinctDirs(ws) && NothingFails(x, ws, faults, stale) && Consistent(x, ws)
    requires StaleApart(ws, Stale(After(x, ws, faults, |ws|), Names(ws)))
    ensures var y := Updated(x, ws, faults, stale);
            Matches(y.host, ws) && Updated(y, ws, again, staleAgain) == y
  {
    hide Updated, NothingFails, Consistent, Matches, Modified, DistinctDirs;
    UpdateConverges(x, ws, faults, stale);
    UpdateStoresFiles(x, ws, faults, stale);
    UpdateIsIdempotent(Updated(x, ws, faults, stale), ws, again, staleAgain);
  }

  // ---------- Workloads that share a directory ----------

  /** Workloads that share a directory are to have the same files in it. */
  predicate Agree(v: WorkloadSpec, w: WorkloadSpec)
  {
    Dir(v.name) == Dir(w.name) ==> v.manifest == w.manifest && v.auth == w.auth
  }

  predicate AllAgree(ws: seq<WorkloadSpec>, n: nat)
    requires n <= |ws|
  {
    forall i, j :: 0 <= i < n && 0 <= j < n ==> Agree(ws[i], ws[j])
  }

  lemma SameFiles(files: map<Path, string>, v: WorkloadSpec, w: WorkloadSpec)
    requires Dir(v.name) == Dir(w.name)
    ensures Agree(v, w) ==> Modified(files, v) == Modified(files, w)
    ensures !Agree(v, w) ==> Modified(files, v) || Modified(files, w)
  {
  }

  /** The calls that replace a pod. */
  function Restart(w: WorkloadSpec): multiset<Call> { multiset{RemoveCall(w.name), RunCall(w.name)} }

  lemma SucceedsStoresFiles(x: World, w: WorkloadSpec, f: Faults)
    requires Succeeds(x, w, f)
    ensures !Modified(Applied(x, w, f).files, w)
    ensures !Modified(x.files, w) ==> Applied(x, w, f) == x
    ensures Modified(x.files, w) ==> Applied(x, w, f).calls == x.calls + Restart(w)
  {
    AppliedRuns(x, w, f);
  }

  /** When those that share a directory agree, an update without a failure leaves the files of all of
      them as configured. */
  lemma {:induction false} AgreeingAreStored(x: World, ws: seq<WorkloadSpec>, faults: nat -> Faults, n: nat)
    requires n <= |ws| && SucceedFirst(x, ws, faults, n) && AllAgree(ws, n)
    ensures forall i :: 0 <= i < n ==> !Modified(After(x, ws, faults, n).files, ws[i])
  {
    hide Applied, Succeeds, Modified, FilesAfter, Agree;
    if n > 0 {
      AgreeingAreStored(x, ws, faults, n - 1);
      var y, w := After(x, ws, faults, n - 1), ws[n - 1];
      SucceedsStoresFiles(y, w, faults(n - 1));
      forall i | 0 <= i < n
        ensures !Modified(Applied(y, w, faults(n - 1)).files, ws[i])
      {
        if Dir(w.name) == Dir(ws[i].name) {
          SameFiles(Applied(y, w, faults(n - 1)).files, w, ws[i]);
        } else {
          AppliedFiles(y, w, faults(n - 1));
          OtherFilesStay(y.files, w, faults(n - 1), ws[i]);
        }
      }
    }
  }

  /** Calls are never forgotten, and an update without a failure that calls nothing has found every
      file as configured. */
  lemma {:induction false} SilentMeansStored(x: World, ws: seq<WorkloadSpec>, faults: nat -> Faults, n: nat)
    requires n <= |ws| && SucceedFirst(x, ws, faults, n)
    ensures x.calls <= After(x, ws, faults, n).calls
    ensures After(x, ws, faults, n).calls == x.calls ==>
              After(x, ws, faults, n) == x && forall i :: 0 <= i < n ==> !Modified(x.files, ws[i])
  {
    hide Applied, Succeeds, Modified;
    if n > 0 {
      SilentMeansStored(x, ws, faults, n - 1);
      var y, w := After(x, ws, faults, n - 1), ws[n - 1];
      SucceedsStoresFiles(y, w, faults(n - 1));
      if Modified(y.files, w) {
        MoreCalls(x.calls, y.calls, RemoveCall(w.name), RunCall(w.name));
      }
    }
  }

  lemma MoreCalls(before: multiset<Call>, now: multiset<Call>, a: Call, b: Call)
    requires before <= now
    ensures before <= now + multiset{a, b} && before != now + multiset{a, b}
  {
    assert (now + multiset{a, b})[a] > now[a] >= before[a];
  }

  /** Nothing is stale after an update in which nothing fails, and a second one finds it so. */
  lemma NothingStaleAgain(x: World, ws: seq<WorkloadSpec>, faults: nat -> Faults, stale: string -> StaleFaults,
                          again: nat -> Faults)
    requires NothingFails(x, ws, faults, stale)
    ensures Stale(After(Updated(x, ws, faults, stale), ws, again, |ws|), Names(ws)) == {}
  {
    hide After, AllSucceed, Pruned;
    var y := Updated(x, ws, faults, stale);
    OnlyConfiguredLeft(After(x, ws, faults, |ws|), ws, stale);
    forall n | n in After(y, ws, again, |ws|).host.deployed
      ensures n in Names(ws)
    {
      NothingElseRuns(y, ws, again, |ws|, n);
    }
  }

  lemma PrunedFilesOf(x: World, stale: set<string>, faults: string -> StaleFaults, w: WorkloadSpec)
    requires forall n :: n in stale ==> !faults(n).deleteDir
    ensures Modified(Pruned(x, stale, faults).files, w) <==>
            (exists n :: n in stale && Dir(n) == Dir(w.name)) || Modified(x.files, w)
  {
  }

  lemma ApartAgree(v: WorkloadSpec, w: WorkloadSpec)
    requires Dir(v.name) != Dir(w.name)
    ensures Agree(v, w)
  {
  }

  /** Settling, exactly: after an update in which nothing failed a second one, in which nothing fails
      either, calls nothing if and only if workloads that share a directory agree on manifest and
      auth, and the first removed no stale workload from the directory of a configured one. */
  lemma SecondUpdateIsSilentExactly(x: World, ws: seq<WorkloadSpec>, faults: nat -> Faults,
                                    stale: string -> StaleFaults, again: nat -> Faults,
                                    staleAgain: string -> StaleFaults)
    requires NothingFails(x, ws, faults, stale)
    requires NothingFails(Updated(x, ws, faults, stale), ws, again, staleAgain)
    ensures var y := Updated(x, ws, faults, stale);
            Updated(y, ws, again, staleAgain).calls == y.calls <==>
            AllAgree(ws, |ws|) && StaleApart(ws, Stale(After(x, ws, faults, |ws|), Names(ws)))
    ensures var y := Updated(x, ws, faults, stale);
            Updated(y, ws, again, staleAgain).calls == y.calls ==> Updated(y, ws, again, staleAgain) == y
  {
    hide After, SucceedFirst, Pruned, Modified, Agree, Dir;
    var first, y := After(x, ws, faults, |ws|), Updated(x, ws, faults, stale);
    var dropped := Stale(first, Names(ws));
    NothingStaleAgain(x, ws, faults, stale, again);
    PrunedNothing(After(y, ws, again, |ws|), staleAgain);
    SilentMeansStored(y, ws, again, |ws|);
    if AllAgree(ws, |ws|) && StaleApart(ws, dropped) {
      AgreeingAreStored(x, ws, faults, |ws|);
      forall w | w in ws
        ensures !Modified(y.files, w)
      {
        PrunedFilesOf(first, dropped, stale, w);
      }
      SettledStays(y, ws, again, |ws|);
    }
    if forall i :: 0 <= i < |ws| ==> !Modified(y.files, ws[i]) {
      forall i, j | 0 <= i < |ws| && 0 <= j < |ws|
        ensures Agree(ws[i], ws[j])
      {
        if Dir(ws[i].name) == Dir(ws[j].name) {
          SameFiles(y.files, ws[i], ws[j]);
        } else {
          ApartAgree(ws[i], ws[j]);
        }
      }
      forall w | w in ws
        ensures forall n :: n in dropped ==> Dir(n) != Dir(w.name)
      {
        PrunedFilesOf(first, dropped, stale, w);
      }
    }
  }

  /** Only these two workloads use the directory, and they do not agree. */
  predicate Quarrel(ws: seq<WorkloadSpec>, i: nat, j: nat)
    requires i < j < |ws|
  {
    && Dir(ws[i].name) == Dir(ws[j].name) && !Agree(ws[i], ws[j])
    && forall k :: 0 <= k < |ws| && k != i && k != j ==> Dir(ws[k].name) != Dir(ws[i].name)
  }

  lemma {:induction false} CallsGrow(x: World, ws: seq<WorkloadSpec>, faults: nat -> Faults, n: nat, i: nat, j: nat)
    requires i <= j <= n <= |ws| && SucceedFirst(x, ws, faults, n)
    ensures After(x, ws, faults, i).calls <= After(x, ws, faults, j).calls
    decreases j
  {
    hide Applied, Succeeds, Modified;
    if i < j {
      CallsGrow(x, ws, faults, n, i, j - 1);
      SucceedsAt(x, ws, faults, n, j - 1);
      SucceedsStoresFiles(After(x, ws, faults, j - 1), ws[j - 1], faults(j - 1));
    }
  }

  /** Handling the k-th workload without a failure, when its files differ. */
  lemma HandlesModified(x: World, ws: seq<WorkloadSpec>, faults: nat -> Faults, k: nat)
    requires k < |ws| && AllSucceed(x, ws, faults)
    ensures !Modified(After(x, ws, faults, k + 1).files, ws[k])
    ensures Modified(After(x, ws, faults, k).files, ws[k]) ==>
              After(x, ws, faults, k + 1).calls == After(x, ws, faults, k).calls + Restart(ws[k])
  {
    hide Applied, Succeeds, Modified;
    SucceedsAt(x, ws, faults, |ws|, k);
    SucceedsStoresFiles(After(x, ws, faults, k), ws[k], faults(k));
  }

  /** After an update without a failure the directory is as the later of the two wants it. */
  lemma LaterWins(x: World, ws: seq<WorkloadSpec>, faults: nat -> Faults, i: nat, j: nat)
    requires i < j < |ws| && AllSucceed(x, ws, faults) && Quarrel(ws, i, j)
    ensures Modified(After(x, ws, faults, |ws|).files, ws[i])
  {
    hide After, AllSucceed, Modified, Agree;
    HandlesModified(x, ws, faults, j);
    AfterKeepsFiles(x, ws, faults, j + 1, |ws|, ws[j]);
    SameFiles(After(x, ws, faults, |ws|).files, ws[i], ws[j]);
  }

  /** The next update replaces the pod of the earlier one, and with it the files of the later one. */
  lemma EarlierIsRestarted(y: World, ws: seq<WorkloadSpec>, faults: nat -> Faults, i: nat, j: nat)
    requires i < j < |ws| && AllSucceed(y, ws, faults) && Quarrel(ws, i, j) && Modified(y.files, ws[i])
    ensures y.calls + Restart(ws[i]) <= After(y, ws, faults, j).calls
    ensures Modified(After(y, ws, faults, j).files, ws[j])
  {
    hide SucceedFirst, Modified, Agree, Applied, After;
    AfterKeepsFiles(y, ws, faults, 0, i, ws[i]);
    NoWorkloads(y, ws, faults);
    HandlesModified(y, ws, faults, i);
    AfterKeepsFiles(y, ws, faults, i + 1, j, ws[i]);
    SameFiles(After(y, ws, faults, j).files, ws[i], ws[j]);
    CallsGrow(y, ws, faults, |ws|, 0, i);
    CallsGrow(y, ws, faults, |ws|, i + 1, j);
  }

  lemma BothAreRestarted(y: World, ws: seq<WorkloadSpec>, faults: nat -> Faults, i: nat, j: nat)
    requires i < j < |ws| && AllSucceed(y, ws, faults) && Quarrel(ws, i, j) && Modified(y.files, ws[i])
    ensures y.calls + Restart(ws[i]) + Restart(ws[j]) <= After(y, ws, faults, |ws|).calls
  {
    hide SucceedFirst, Modified, Agree, Applied, After, Quarrel;
    EarlierIsRestarted(y, ws, faults, i, j);
    HandlesModified(y, ws, faults, j);
    CallsGrow(y, ws, faults, |ws|, j + 1, |ws|);
  }

  /** Two workloads that use one directory and disagree never settle: when nothing fails, each update
      overwrites the files of both, so the next one removes and runs both again. */
  lemma SharedDirectoryNeverSettles(x: World, ws: seq<WorkloadSpec>, faults: nat -> Faults,
                                    stale: string -> StaleFaults, again: nat -> Faults,
                                    staleAgain: string -> StaleFaults, i: nat, j: nat)
    requires i < j < |ws| && Quarrel(ws, i, j)
    requires NothingFails(x, ws, faults, stale)
    requires NothingFails(Updated(x, ws, faults, stale), ws, again, staleAgain)
    ensures var y := Updated(x, ws, faults, stale);
            y.calls + Restart(ws[i]) + Restart(ws[j]) <= Updated(y, ws, again, staleAgain).calls
  {
    hide After, AllSucceed, Pruned, Modified, Agree, Dir;
    var first, y := After(x, ws, faults, |ws|), Updated(x, ws, faults, stale);
    LaterWins(x, ws, faults, i, j);
    PrunedFilesOf(first, Stale(first, Names(ws)), stale, ws[i]);
    BothAreRestarted(y, ws, again, i, j);
    NothingStaleAgain(x, ws, faults, stale, again);
    PrunedNothing(After(y, ws, again, |ws|), staleAgain);
  }

  /** Whatever fails, a pod that runs after an update is one that ran before it, unchanged, or a
      configured workload running exactly its configuration. */
  lemma {:induction false} NothingElseRuns(x: World, ws: seq<WorkloadSpec>, faults: nat -> Faults, i: nat, name: string)
    requires i <= |ws| && name in After(x, ws, faults, i).host.deployed
    ensures var now := After(x, ws, faults, i).host.deployed[name];
            || (name in x.host.deployed && now == x.host.deployed[name])
            || (exists w :: w in ws && w.name == name && now.manifest == w.manifest && now.auth == w.auth)
  {
    hide Applied;
    if i > 0 {
      var y, w := After(x, ws, faults, i - 1), ws[i - 1];
      AppliedAt(y, w, faults(i - 1), name);
      if name in y.host.deployed {
        NothingElseRuns(x, ws, faults, i - 1, name);
      }
      assert w in ws;
    }
  }

  lemma AppliedAt(x: World, w: WorkloadSpec, f: Faults, name: string)
    requires name in Applied(x, w, f).host.deployed
    ensures var now := Applied(x, w, f).host.deployed[name];
            || (name in x.host.deployed && now == x.host.deployed[name])
            || (name == w.name && now.manifest == w.manifest && now.auth == w.auth)
  {
  }
}
