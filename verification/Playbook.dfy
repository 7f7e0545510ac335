/** The transformation of Ansible playbook results into runner job events. */
module Playbook {
  import opened TaskIds

  datatype HostResult =
    HostResult(action: string, changed: bool, stdout: string, stderr: string, failed: bool, skipped: bool)

  /** The part of a task result whose id the transformation renames in place. */
  class TaskItem {
    var id: string
    const name: string

    constructor (id: string, name: string)
      ensures this.id == id && this.name == name
    {
      this.id := id;
      this.name := name;
    }
  }

  datatype Task = Task(item: TaskItem, hosts: map<string, HostResult>)

  datatype Play = Play(id: string, tasks: seq<Task>)

  datatype Kind = PlaybookStart | PlayStart | TaskStart | RunnerOk | RunnerFailed | RunnerSkipped | Stats

  /** A job event; parent is its playbook uuid, task its name for the task it is about, and item
      the result an outcome event keeps pointing to. */
  datatype Event = Event(kind: Kind, counter: int, uuid: string, parent: string, task: string, action: string,
                         stdout: string, stderr: string, item: TaskItem?)

  function PlaybookOnStart(uuid: string, counter: int): Event
  {
    Event(PlaybookStart, counter, uuid, uuid, "", "", "", "", null)
  }

  function PlaybookOnPlayStart(counter: int, play: Play): Event
  {
    Event(PlayStart, counter, play.id, play.id, "", "", "", "", null)
  }

  function PlaybookOnStats(filename: string, counter: int): Event
  {
    Event(Stats, counter, "", filename, "", "", "", "", null)
  }

  function OutcomeKind(host: HostResult): Kind
  {
    if host.failed then RunnerFailed else if host.skipped then RunnerSkipped else RunnerOk
  }

  function Outcome(kind: Kind, parent: string, counter: int, item: TaskItem, host: HostResult): Event
    reads item
  {
    Event(kind, counter, item.id, parent, item.name, host.action, host.stdout,
          if kind == RunnerOk then "" else host.stderr, item)
  }

  // ---------- The shape of the log ----------

  /** The two events of one host of one task. */
  datatype Pair = Pair(task: nat, host: string, start: Event, outcome: Event)

  /** The events of one play, the pairs grouped by task. */
  datatype PlayLog = PlayLog(start: Event, groups: seq<seq<Pair>>, stats: Event)

  function PairEvents(pairs: seq<Pair>): (events: seq<Event>)
    ensures |events| == 2 * |pairs|
  {
    if pairs == [] then []
    else PairEvents(pairs[..|pairs| - 1]) + [pairs[|pairs| - 1].start, pairs[|pairs| - 1].outcome]
  }

  function GroupEvents(groups: seq<seq<Pair>>): seq<Event>
  {
    if groups == [] then [] else GroupEvents(groups[..|groups| - 1]) + PairEvents(groups[|groups| - 1])
  }

  function PlayEvents(log: PlayLog): seq<Event>
  {
    [log.start] + GroupEvents(log.groups) + [log.stats]
  }

  function AllEvents(logs: seq<PlayLog>): seq<Event>
  {
    if logs == [] then [] else AllEvents(logs[..|logs| - 1]) + PlayEvents(logs[|logs| - 1])
  }

  ghost predicate Counted(events: seq<Event>)
  {
    forall k :: 0 <= k < |events| ==> events[k].counter == k + 1
  }

  /** A task start under its play, followed by the outcome of the same task and host under the
      task start, with one uuid. */
  ghost predicate GoodPair(pair: Pair, play: Play)
  {
    && pair.task < |play.tasks|
    && pair.host in play.tasks[pair.task].hosts
    && var item, host := play.tasks[pair.task].item, play.tasks[pair.task].hosts[pair.host];
       var uuid := pair.start.uuid;
       && pair.start ==
          Event(TaskStart, pair.start.counter, uuid, play.id, item.name, host.action, host.stdout, "", null)
       && pair.outcome ==
          Event(OutcomeKind(host), pair.outcome.counter, uuid, uuid, item.name, host.action, host.stdout,
                if host.failed || host.skipped then host.stderr else "", item)
  }

  ghost function HostsOf(pairs: seq<Pair>): set<string>
  {
    set i | 0 <= i < |pairs| :: pairs[i].host
  }

  /** One good pair for each of the given hosts of a task, in some order. */
  ghost predicate HostPairs(pairs: seq<Pair>, play: Play, t: nat, hosts: set<string>)
  {
    && |pairs| == |hosts| && HostsOf(pairs) == hosts
    && (forall i :: 0 <= i < |pairs| ==> GoodPair(pairs[i], play) && pairs[i].task == t)
    && (forall i, j :: 0 <= i < j < |pairs| ==> pairs[i].host != pairs[j].host)
  }

  /** The i-th pair goes under the id that i + 1 renamings give. */
  ghost predicate NamedInTurn(pairs: seq<Pair>, id: string, taskUUIDs: Counts, duplicates: Counts)
  {
    forall i :: 0 <= i < |pairs| ==> pairs[i].start.uuid == RenameTimes(i + 1, id, taskUUIDs, duplicates).0
  }

  /** Play start, every task in order with every host once, and stats. */
  ghost predicate GoodLog(log: PlayLog, play: Play, filename: string)
  {
    && log.start == PlaybookOnPlayStart(log.start.counter, play)
    && log.stats == PlaybookOnStats(filename, log.stats.counter)
    && |log.groups| == |play.tasks|
    && forall t :: 0 <= t < |play.tasks| ==> HostPairs(log.groups[t], play, t, play.tasks[t].hosts.Keys)
  }

  // ---------- Ids in the results tree ----------

  function Items(tasks: seq<Task>): set<TaskItem>
  {
    set k | 0 <= k < |tasks| :: tasks[k].item
  }

  ghost predicate AreIds(tasks: seq<Task>, ids: seq<string>)
    reads Items(tasks)
  {
    |ids| == |tasks| && forall k :: 0 <= k < |tasks| ==> tasks[k].item.id == ids[k]
  }

  ghost predicate Unshared(tasks: seq<Task>)
  {
    forall i, j :: 0 <= i < j < |tasks| ==> tasks[i].item != tasks[j].item
  }

  /** All hosts of one task share one uuid, and different tasks do not. */
  ghost predicate Disambiguated(groups: seq<seq<Pair>>)
  {
    && (forall t, i, j :: 0 <= t < |groups| && 0 <= i < |groups[t]| && 0 <= j < |groups[t]| ==>
          groups[t][i].start.uuid == groups[t][j].start.uuid)
    && (forall t, u, i, j :: 0 <= t < u < |groups| && 0 <= i < |groups[t]| && 0 <= j < |groups[u]| ==>
          groups[t][i].start.uuid != groups[u][j].start.uuid)
  }

  /** What the outcome events point to still has the uuid they carry. */
  ghost predicate PointersAgree(groups: seq<seq<Pair>>, tasks: seq<Task>)
    reads Items(tasks)
  {
    && |groups| <= |tasks|
    && forall t, i :: 0 <= t < |groups| && 0 <= i < |groups[t]| ==>
         && groups[t][i].outcome.item == tasks[t].item
         && groups[t][i].start.uuid == groups[t][i].outcome.uuid == tasks[t].item.id
  }

  lemma HostsOfSnoc(pairs: seq<Pair>, pair: Pair)
    ensures HostsOf(pairs + [pair]) == HostsOf(pairs) + {pair.host}
  {
    var more := pairs + [pair];
    forall h | h in HostsOf(pairs) + {pair.host}
      ensures h in HostsOf(more)
    {
      if h == pair.host {
        assert more[|pairs|].host == h;
      } else {
        var i :| 0 <= i < |pairs| && pairs[i].host == h;
        assert more[i].host == h;
      }
    }
  }

  lemma PairEventsSnoc(pairs: seq<Pair>, pair: Pair)
    ensures PairEvents(pairs + [pair]) == PairEvents(pairs) + [pair.start, pair.outcome]
  {
    assert (pairs + [pair])[..|pairs|] == pairs;
  }

  lemma OneMoreHost(pairs: seq<Pair>, play: Play, t: nat, hosts: set<string>, pair: Pair)
    requires HostPairs(pairs, play, t, hosts)
    requires GoodPair(pair, play) && pair.task == t && pair.host !in hosts
    ensures HostPairs(pairs + [pair], play, t, hosts + {pair.host})
  {
    hide GoodPair, HostsOf;
    HostsOfSnoc(pairs, pair);
    HostsOfAll(pairs);
  }

  lemma HostsOfAll(pairs: seq<Pair>)
    ensures forall i :: 0 <= i < |pairs| ==> pairs[i].host in HostsOf(pairs)
  {
  }

  lemma OneMoreName(pairs: seq<Pair>, pair: Pair, id: string, taskUUIDs: Counts, duplicates: Counts)
    requires NamedInTurn(pairs, id, taskUUIDs, duplicates)
    requires pair.start.uuid == RenameTimes(|pairs| + 1, id, taskUUIDs, duplicates).0
    ensures NamedInTurn(pairs + [pair], id, taskUUIDs, duplicates)
  {
  }

  /** The hosts of one task, in some order. */
  method TransformTask(play: Play, t: nat, taskUUIDs: Counts, duplicates: Counts, msgs: seq<Event>)
    returns (more: seq<Event>, duplicates': Counts, ghost pairs: seq<Pair>)
    requires t < |play.tasks| && Counted(msgs)
    modifies play.tasks[t].item
    ensures more == msgs + PairEvents(pairs) && Counted(more)
    ensures HostPairs(pairs, play, t, play.tasks[t].hosts.Keys)
    ensures NamedInTurn(pairs, old(play.tasks[t].item.id), taskUUIDs, duplicates)
    ensures (play.tasks[t].item.id, duplicates') ==
            RenameTimes(|pairs|, old(play.tasks[t].item.id), taskUUIDs, duplicates)
  {
    hide HostPairs, NamedInTurn, PairEvents, GoodPair;
    var task := play.tasks[t];
    more, duplicates', pairs := msgs, duplicates, [];
    var left := task.hosts.Keys;
    ghost var done := {};
    NoHosts(play, t, task.item.id, taskUUIDs, duplicates, msgs);
    while left != {}
      invariant left + done == task.hosts.Keys && left !! done
      invariant more == msgs + PairEvents(pairs) && Counted(more)
      invariant HostPairs(pairs, play, t, done) && NamedInTurn(pairs, old(task.item.id), taskUUIDs, duplicates)
      invariant (task.item.id, duplicates') == RenameTimes(|pairs|, old(task.item.id), taskUUIDs, duplicates)
      decreases left
    {
      var h :| h in left;
      var start, outcome;
      start, outcome, duplicates' := TransformHost(play, t, h, |more|, taskUUIDs, duplicates');
      ghost var pair := Pair(t, h, start, outcome);
      OneMoreHost(pairs, play, t, done, pair);
      OneMoreName(pairs, pair, old(task.item.id), taskUUIDs, duplicates);
      PairEventsSnoc(pairs, pair);
      Regroup(msgs, PairEvents(pairs), [start, outcome]);
      more := more + [start, outcome];
      pairs := pairs + [pair];
      left, done := left - {h}, done + {h};
    }
  }

  lemma Regroup(a: seq<Event>, b: seq<Event>, c: seq<Event>)
    ensures (a + b) + c == a + (b + c)
  {
  }

  lemma NoHosts(play: Play, t: nat, id: string, taskUUIDs: Counts, duplicates: Counts, msgs: seq<Event>)
    ensures HostPairs([], play, t, {}) && NamedInTurn([], id, taskUUIDs, duplicates)
    ensures RenameTimes(0, id, taskUUIDs, duplicates) == (id, duplicates)
    ensures msgs + PairEvents([]) == msgs
  {
  }

  /** One host: the start of the task, and its outcome under the id the start gave it. */
  method TransformHost(play: Play, t: nat, h: string, msgCounter: nat, taskUUIDs: Counts, duplicates: Counts)
    returns (start: Event, outcome: Event, duplicates': Counts)
    requires t < |play.tasks| && h in play.tasks[t].hosts
    modifies play.tasks[t].item
    ensures GoodPair(Pair(t, h, start, outcome), play)
    ensures start.counter == msgCounter + 1 && outcome.counter == msgCounter + 2
    ensures start.uuid == play.tasks[t].item.id
    ensures (play.tasks[t].item.id, duplicates') == Rename(old(play.tasks[t].item.id), taskUUIDs, duplicates)
  {
    var item, host := play.tasks[t].item, play.tasks[t].hosts[h];
    start, duplicates' := PlaybookOnTaskStart(play.id, msgCounter + 1, item, host, taskUUIDs, duplicates);
    if host.failed {
      outcome := Outcome(RunnerFailed, start.uuid, msgCounter + 2, item, host);
    } else if host.skipped {
      outcome := Outcome(RunnerSkipped, start.uuid, msgCounter + 2, item, host);
    } else {
      outcome := Outcome(RunnerOk, start.uuid, msgCounter + 2, item, host);
    }
  }

  /** The task start event; a repeated id is renamed in place first. */
  method PlaybookOnTaskStart(playbookUUID: string, counter: int, item: TaskItem, host: HostResult,
                             taskUUIDs: Counts, duplicateTaskCount: Counts)
    returns (event: Event, duplicates: Counts)
    modifies item
    ensures (item.id, duplicates) == Rename(old(item.id), taskUUIDs, duplicateTaskCount)
    ensures event == Event(TaskStart, counter, item.id, playbookUUID, item.name, host.action, host.stdout, "", null)
  {
    var taskUUID := item.id;
    duplicates := duplicateTaskCount;
    if taskUUID in taskUUIDs && taskUUIDs[taskUUID] > 1 {
      var k := Count(duplicates, taskUUID) + 1;
      duplicates := duplicates[taskUUID := k];
      taskUUID := taskUUID + "_" + Itoa(k);
      item.id := taskUUID;
    }
    event := Event(TaskStart, counter, taskUUID, playbookUUID, item.name, host.action, host.stdout, "", null);
  }

  /** How often each id occurs among the tasks of a play. */
  method CountOccurence(tasks: seq<Task>) returns (dict: Counts, ghost ids: seq<string>)
    ensures AreIds(tasks, ids) && dict == Occurrences(ids)
  {
    dict, ids := map[], [];
    var k := 0;
    while k < |tasks|
      invariant 0 <= k <= |tasks| && |ids| == k && dict == Occurrences(ids)
      invariant forall j :: 0 <= j < k ==> tasks[j].item.id == ids[j]
    {
      var id := tasks[k].item.id;
      dict := dict[id := Count(dict, id) + 1];
      assert (ids + [id])[..|ids|] == ids;
      ids := ids + [id];
      k := k + 1;
    }
  }

  // ---------- One play ----------

  /** The first |groups| tasks are done: every host once, and the log has their events. */
  ghost predicate TasksDone(groups: seq<seq<Pair>>, play: Play)
  {
    && |groups| <= |play.tasks|
    && forall t :: 0 <= t < |groups| ==> HostPairs(groups[t], play, t, play.tasks[t].hosts.Keys)
  }

  /** Which tasks have a host. */
  function Used(groups: seq<seq<Pair>>): (used: seq<bool>)
    ensures |used| == |groups|
  {
    seq(|groups|, t requires 0 <= t < |groups| => groups[t] != [])
  }

  function UsedTasks(tasks: seq<Task>): (used: seq<bool>)
    ensures |used| == |tasks|
  {
    seq(|tasks|, t requires 0 <= t < |tasks| => |tasks[t].hosts| > 0)
  }

  /** The tasks done have got their final ids, now, and the others still have their own. */
  ghost predicate NamesSoFar(groups: seq<seq<Pair>>, ids: seq<string>, now: seq<string>, used: seq<bool>,
                             start: Counts, duplicates: Counts)
  {
    && |groups| <= |now| == |ids| == |used|
    && CountedOn(ids, used, start, |groups|, duplicates)
    && (forall t :: 0 <= t < |groups| && used[t] ==> now[t] == FinalId(ids, used, start, t))
    && (forall t :: |groups| <= t < |ids| ==> now[t] == ids[t])
    && (forall t, i :: 0 <= t < |groups| && 0 <= i < |groups[t]| ==> groups[t][i].start.uuid == now[t])
  }

  lemma GroupNames(pairs: seq<Pair>, ids: seq<string>, id: string, duplicates: Counts)
    requires Unsplit(ids) && NamedInTurn(pairs, id, Occurrences(ids), duplicates)
    ensures forall i :: 0 <= i < |pairs| ==>
              pairs[i].start.uuid == RenameTimes(|pairs|, id, Occurrences(ids), duplicates).0
  {
    forall i | 0 <= i < |pairs|
      ensures pairs[i].start.uuid == RenameTimes(|pairs|, id, Occurrences(ids), duplicates).0
    {
      RenamedOnce(i + 1, ids, id, duplicates);
      RenamedOnce(|pairs|, ids, id, duplicates);
    }
  }

  lemma OneMoreTask(groups: seq<seq<Pair>>, play: Play, pairs: seq<Pair>)
    requires TasksDone(groups, play) && |groups| < |play.tasks|
    requires HostPairs(pairs, play, |groups|, play.tasks[|groups|].hosts.Keys)
    ensures TasksDone(groups + [pairs], play)
    ensures GroupEvents(groups + [pairs]) == GroupEvents(groups) + PairEvents(pairs)
  {
    hide HostPairs;
    assert (groups + [pairs])[..|groups|] == groups;
  }

  lemma OneMoreNamed(groups: seq<seq<Pair>>, ids: seq<string>, now: seq<string>, used: seq<bool>, start: Counts,
                     duplicates: Counts, pairs: seq<Pair>, name: string, duplicates': Counts)
    requires Unsplit(ids) && |groups| < |ids| && NamesSoFar(groups, ids, now, used, start, duplicates)
    requires used[|groups|] == (|pairs| > 0)
    requires NamedInTurn(pairs, now[|groups|], Occurrences(ids), duplicates)
    requires (name, duplicates') == RenameTimes(|pairs|, now[|groups|], Occurrences(ids), duplicates)
    ensures NamesSoFar(groups + [pairs], ids, now[|groups| := name], used, start, duplicates')
  {
    hide CountedOn, FinalId, NamedInTurn, RenameTimes, Unsplit;
    GroupNames(pairs, ids, now[|groups|], duplicates);
    NextNumber(ids, used, start, |groups|, duplicates, |pairs|, name, duplicates');
  }

  /** The uuids of one play: those of one task agree, and are its final id. */
  ghost predicate HaveFinalIds(groups: seq<seq<Pair>>, ids: seq<string>, start: Counts)
  {
    && |groups| == |ids|
    && forall t, i :: 0 <= t < |groups| && 0 <= i < |groups[t]| ==>
         groups[t][i].start.uuid == FinalId(ids, Used(groups), start, t)
  }

  /** The uuids of one play are as they should be: the hosts of a task share the one it ends up with,
      and different tasks do not exactly when none has the id that another one gets. */
  ghost predicate GoodIds(log: PlayLog, ids: seq<string>, start: Counts)
  {
    Unsplit(ids) ==>
      && HaveFinalIds(log.groups, ids, start)
      && (Disambiguated(log.groups) <==> NoneTaken(ids, Used(log.groups), start))
  }

  ghost predicate GoodPointers(log: PlayLog, play: Play, ids: seq<string>)
    reads Items(play.tasks)
  {
    Unsplit(ids) ==> PointersAgree(log.groups, play.tasks)
  }

  /** The counters a play leaves behind. */
  ghost predicate GoodCounters(log: PlayLog, ids: seq<string>, start: Counts, now: Counts)
  {
    Unsplit(ids) ==> |log.groups| == |ids| && Follows(ids, Used(log.groups), start, now)
  }

  lemma DisambiguatedExactly(groups: seq<seq<Pair>>, ids: seq<string>, start: Counts)
    requires HaveFinalIds(groups, ids, start)
    ensures Disambiguated(groups) <==> NoneTaken(ids, Used(groups), start)
  {
    hide FinalId, NoneTaken;
    NumberingDistinguishes(ids, Used(groups), start);
    if Disambiguated(groups) {
      forall t, u | 0 <= t < u < |ids| && Used(groups)[t] && Used(groups)[u]
        ensures FinalId(ids, Used(groups), start, t) != FinalId(ids, Used(groups), start, u)
      {
        assert groups[t][0].start.uuid != groups[u][0].start.uuid;
      }
    }
  }

  /** With plain ids that is always so. */
  lemma PlainAreDisambiguated(log: PlayLog, ids: seq<string>, start: Counts)
    requires GoodIds(log, ids, start) && Plain(ids)
    ensures Disambiguated(log.groups)
  {
    PlainIsUnsplit(ids);
    NumberingDistinguishes(ids, Used(log.groups), start);
  }

  lemma NamesAreFinal(groups: seq<seq<Pair>>, play: Play, ids: seq<string>, now: seq<string>, start: Counts,
                      duplicates: Counts)
    requires |groups| == |play.tasks| && AreIds(play.tasks, now) && TasksDone(groups, play)
    requires Used(groups) == UsedTasks(play.tasks)
    requires NamesSoFar(groups, ids, now, UsedTasks(play.tasks), start, duplicates)
    ensures HaveFinalIds(groups, ids, start) && PointersAgree(groups, play.tasks)
    ensures Follows(ids, Used(groups), start, duplicates)
  {
    hide FinalId;
    forall t, i | 0 <= t < |groups| && 0 <= i < |groups[t]|
      ensures groups[t][i].outcome.item == play.tasks[t].item && groups[t][i].start.uuid == groups[t][i].outcome.uuid
      ensures Used(groups)[t]
    {
      assert HostPairs(groups[t], play, t, play.tasks[t].hosts.Keys);
      assert GoodPair(groups[t][i], play);
    }
    forall id | Repeated(ids, id)
      ensures Count(start, id) + UsedCount(ids, Used(groups), id, |ids|) <= Count(duplicates, id)
    {
    }
  }

  lemma UsedAreDone(groups: seq<seq<Pair>>, play: Play)
    requires TasksDone(groups, play) && |groups| == |play.tasks|
    ensures Used(groups) == UsedTasks(play.tasks)
  {
    forall t | 0 <= t < |groups|
      ensures |groups[t]| == |play.tasks[t].hosts|
    {
      assert HostPairs(groups[t], play, t, play.tasks[t].hosts.Keys);
    }
  }

  lemma PlayIsNamed(log: PlayLog, play: Play, ids: seq<string>, now: seq<string>, start: Counts, duplicates: Counts)
    requires |log.groups| == |play.tasks| && AreIds(play.tasks, now) && TasksDone(log.groups, play)
    requires NamesSoFar(log.groups, ids, now, UsedTasks(play.tasks), start, duplicates)
    ensures GoodIds(log, ids, start) && GoodPointers(log, play, ids) && GoodCounters(log, ids, start, duplicates)
  {
    hide NamesSoFar, TasksDone, NoneTaken, Disambiguated, FinalId, PointersAgree, Follows;
    UsedAreDone(log.groups, play);
    NamesAreFinal(log.groups, play, ids, now, start, duplicates);
    DisambiguatedExactly(log.groups, ids, start);
  }

  lemma OneMoreGoesOn(before: Counts, now: Counts, n: nat, id: string, occurrences: Counts, next: Counts)
    requires GoOn(before, now) && next == RenameTimes(n, id, occurrences, now).1
    ensures GoOn(before, next)
  {
    RenamingGoesOn(n, id, occurrences, now);
    forall x
      ensures Count(before, x) <= Count(next, x)
    {
      assert Count(before, x) <= Count(now, x) <= Count(next, x);
    }
  }

  method TransformPlay(play: Play, filename: string, msgs: seq<Event>, duplicates: Counts)
    returns (more: seq<Event>, duplicates': Counts, ghost log: PlayLog, ghost ids: seq<string>)
    requires Counted(msgs)
    modifies Items(play.tasks)
    ensures more == msgs + PlayEvents(log) && Counted(more) && |more| >= |msgs| + 2
    ensures GoodLog(log, play, filename) && old(AreIds(play.tasks, ids))
    ensures GoOn(duplicates, duplicates')
    ensures Unshared(play.tasks) ==>
              && GoodIds(log, ids, duplicates) && GoodPointers(log, play, ids)
              && GoodCounters(log, ids, duplicates, duplicates')
  {
    hide TasksDone, NamesSoFar, HostPairs, NamedInTurn, PairEvents, GroupEvents, RenameTimes, Occurrences, Unsplit,
      GoodIds, GoodPointers, GoodCounters, GoOn, UsedTasks;
    var start := PlaybookOnPlayStart(|msgs| + 1, play);
    var taskUUIDs;
    taskUUIDs, ids := CountOccurence(play.tasks);
    more, duplicates' := msgs + [start], duplicates;
    ghost var groups: seq<seq<Pair>> := [];
    ghost var now, used := ids, UsedTasks(play.tasks);
    ghost var named := Unshared(play.tasks) && Unsplit(ids);
    NoTasks(play, ids, duplicates, msgs + [start]);
    var t := 0;
    while t < |play.tasks|
      invariant 0 <= t == |groups| <= |play.tasks|
      invariant more == (msgs + [start]) + GroupEvents(groups) && Counted(more)
      invariant TasksDone(groups, play)
      invariant GoOn(duplicates, duplicates')
      invariant named ==> AreIds(play.tasks, now)
      invariant named ==> NamesSoFar(groups, ids, now, used, duplicates, duplicates')
    {
      ghost var before, id := duplicates', play.tasks[t].item.id;
      ghost var pairs;
      more, duplicates', pairs := TransformTask(play, t, taskUUIDs, duplicates', more);
      OneMoreTask(groups, play, pairs);
      Regroup(msgs + [start], GroupEvents(groups), PairEvents(pairs));
      OneMoreGoesOn(duplicates, before, |pairs|, id, taskUUIDs, duplicates');
      if named {
        UsedAt(pairs, play, t);
        OneMoreNamed(groups, ids, now, used, duplicates, before, pairs, play.tasks[t].item.id, duplicates');
        now := now[t := play.tasks[t].item.id];
      }
      groups := groups + [pairs];
      t := t + 1;
    }
    var stats := PlaybookOnStats(filename, |more| + 1);
    log := PlayLog(start, groups, stats);
    AllTasksDone(log, play, filename, msgs);
    more := more + [stats];
    if named {
      PlayIsNamed(log, play, ids, now, duplicates, duplicates');
    } else {
      NothingNamed(log, play, ids, duplicates, duplicates');
    }
  }

  lemma NoTasks(play: Play, ids: seq<string>, duplicates: Counts, msgs: seq<Event>)
    requires AreIds(play.tasks, ids)
    ensures TasksDone([], play) && NamesSoFar([], ids, ids, UsedTasks(play.tasks), duplicates, duplicates)
    ensures msgs + GroupEvents([]) == msgs && GoOn(duplicates, duplicates)
  {
  }

  lemma UsedAt(pairs: seq<Pair>, play: Play, t: nat)
    requires t < |play.tasks| && HostPairs(pairs, play, t, play.tasks[t].hosts.Keys)
    ensures UsedTasks(play.tasks)[t] == (|pairs| > 0)
  {
  }

  lemma NothingNamed(log: PlayLog, play: Play, ids: seq<string>, start: Counts, now: Counts)
    requires !Unsplit(ids) || !Unshared(play.tasks)
    ensures Unshared(play.tasks) ==>
              GoodIds(log, ids, start) && GoodPointers(log, play, ids) && GoodCounters(log, ids, start, now)
  {
  }

  lemma AllTasksDone(log: PlayLog, play: Play, filename: string, msgs: seq<Event>)
    requires TasksDone(log.groups, play) && |log.groups| == |play.tasks|
    requires log.start == PlaybookOnPlayStart(log.start.counter, play)
    requires log.stats == PlaybookOnStats(filename, log.stats.counter)
    ensures GoodLog(log, play, filename)
    ensures ((msgs + [log.start]) + GroupEvents(log.groups)) + [log.stats] == msgs + PlayEvents(log)
  {
    hide GroupEvents, HostPairs;
    Regroup(msgs, [log.start], GroupEvents(log.groups));
    Regroup(msgs, [log.start] + GroupEvents(log.groups), [log.stats]);
  }

  // ---------- All plays ----------

  function TreeItems(plays: seq<Play>): set<TaskItem>
  {
    set p, k | 0 <= p < |plays| && 0 <= k < |plays[p].tasks| :: plays[p].tasks[k].item
  }

  /** No task item is shared by two tasks. */
  ghost predicate Separate(plays: seq<Play>)
  {
    && (forall p :: 0 <= p < |plays| ==> Unshared(plays[p].tasks))
    && (forall p, q :: 0 <= p < q < |plays| ==> Items(plays[p].tasks) !! Items(plays[q].tasks))
  }

  ghost predicate GoodLogs(logs: seq<PlayLog>, plays: seq<Play>, filename: string)
  {
    |logs| <= |plays| && forall p :: 0 <= p < |logs| ==> GoodLog(logs[p], plays[p], filename)
  }

  lemma OneMorePlay(logs: seq<PlayLog>, plays: seq<Play>, filename: string, log: PlayLog)
    requires GoodLogs(logs, plays, filename) && |logs| < |plays| && GoodLog(log, plays[|logs|], filename)
    ensures GoodLogs(logs + [log], plays, filename)
    ensures AllEvents(logs + [log]) == AllEvents(logs) + PlayEvents(log)
  {
    hide GoodLog, PlayEvents;
    assert (logs + [log])[..|logs|] == logs;
  }

  lemma NoPlays(plays: seq<Play>, filename: string)
    ensures GoodLogs([], plays, filename) && AllEvents([]) == []
  {
  }

  /** Each play so far had the uuids its counters gave it, and left those that the next one starts
      from. */
  ghost predicate PlaysNamed(logs: seq<PlayLog>, ids: seq<seq<string>>, starts: seq<Counts>)
  {
    && |logs| == |ids| && |starts| == |logs| + 1
    && (forall p :: 0 <= p < |logs| ==> GoodIds(logs[p], ids[p], starts[p]))
    && (forall p, q :: 0 <= p < q <= |logs| ==> GoodCounters(logs[p], ids[p], starts[p], starts[q]))
  }

  lemma NoPlayNamed()
    ensures PlaysNamed([], [], [map[]])
  {
  }

  lemma CountersGoOn(log: PlayLog, ids: seq<string>, start: Counts, now: Counts, later: Counts)
    requires GoodCounters(log, ids, start, now) && GoOn(now, later)
    ensures GoodCounters(log, ids, start, later)
  {
    if Unsplit(ids) {
      forall id | Repeated(ids, id)
        ensures Count(start, id) + UsedCount(ids, Used(log.groups), id, |ids|) <= Count(later, id)
      {
        assert Count(now, id) <= Count(later, id);
      }
    }
  }

  lemma OneMoreNamedPlay(logs: seq<PlayLog>, ids: seq<seq<string>>, starts: seq<Counts>,
                         log: PlayLog, own: seq<string>, now: Counts)
    requires PlaysNamed(logs, ids, starts)
    requires GoodIds(log, own, starts[|logs|]) && GoodCounters(log, own, starts[|logs|], now)
    requires GoOn(starts[|logs|], now)
    ensures PlaysNamed(logs + [log], ids + [own], starts + [now])
  {
    hide GoodIds, GoodCounters, GoOn;
    forall p | 0 <= p < |logs|
      ensures GoodCounters(logs[p], ids[p], starts[p], now)
    {
      CountersGoOn(logs[p], ids[p], starts[p], starts[|logs|], now);
    }
  }

  /** Transforms the results of a playbook into its events. */
  method EventTransformer(plays: seq<Play>, filename: string, playbookUUID: string)
    returns (msgList: seq<Event>, ghost logs: seq<PlayLog>, ghost ids: seq<seq<string>>, ghost starts: seq<Counts>)
    modifies TreeItems(plays)
    ensures msgList == AllEvents(logs) && Counted(msgList)
    ensures |logs| == |plays| == |ids| && GoodLogs(logs, plays, filename)
    ensures Separate(plays) ==> PlaysNamed(logs, ids, starts) && starts[0] == map[]
    ensures Separate(plays) ==> forall p :: 0 <= p < |plays| ==>
              old(AreIds(plays[p].tasks, ids[p])) && GoodPointers(logs[p], plays[p], ids[p])
  {
    hide GoodLogs, GoodLog, AllEvents, PlayEvents, GoodIds, GoodPointers, GoodCounters, PlaysNamed, GoOn;
    msgList, logs, ids := [], [], [];
    var duplicateTaskCount: Counts := map[];
    starts := [map[]];
    NoPlays(plays, filename);
    NoPlayNamed();
    var i := 0;
    while i < |plays|
      invariant 0 <= i == |logs| == |ids| == |starts| - 1 <= |plays| && GoodLogs(logs, plays, filename)
      invariant msgList == AllEvents(logs) && Counted(msgList) && |msgList| != 1
      invariant starts[i] == duplicateTaskCount && starts[0] == map[]
      invariant Separate(plays) ==> PlaysNamed(logs, ids, starts)
      invariant Separate(plays) ==> forall p, k :: i <= p < |plays| && 0 <= k < |plays[p].tasks| ==>
                  plays[p].tasks[k].item.id == old(plays[p].tasks[k].item.id)
      invariant Separate(plays) ==> forall p :: 0 <= p < i ==>
                  old(AreIds(plays[p].tasks, ids[p])) && GoodPointers(logs[p], plays[p], ids[p])
    {
      var play := plays[i];
      if |msgList| == 1 {
        msgList := msgList + [PlaybookOnStart(playbookUUID, 1)];
      }
      ghost var log, own;
      msgList, duplicateTaskCount, log, own := TransformPlay(play, filename, msgList, duplicateTaskCount);
      OneMorePlay(logs, plays, filename, log);
      if Separate(plays) {
        OneMoreNamedPlay(logs, ids, starts, log, own, duplicateTaskCount);
      }
      logs, ids, starts := logs + [log], ids + [own], starts + [duplicateTaskCount];
      i := i + 1;
    }
  }

  /** Tasks of different plays share a uuid if and only if both started with it and neither play
      repeats it, or one has, unrepeated, the id that the other one gets; with plain ids only the
      former happens. */
  lemma UuidsAcrossPlays(logs: seq<PlayLog>, ids: seq<seq<string>>, starts: seq<Counts>,
                         p: nat, q: nat, t: nat, u: nat, i: nat, j: nat)
    requires PlaysNamed(logs, ids, starts) && p < q < |logs| && Unsplit(ids[p]) && Unsplit(ids[q])
    requires t < |logs[p].groups| && i < |logs[p].groups[t]| && u < |logs[q].groups| && j < |logs[q].groups[u]|
    ensures |logs[p].groups| == |ids[p]| && |logs[q].groups| == |ids[q]|
    ensures logs[p].groups[t][i].start.uuid == logs[q].groups[u][j].start.uuid <==>
            || (ids[p][t] == ids[q][u] && !Repeated(ids[p], ids[p][t]) && !Repeated(ids[q], ids[q][u]))
            || Takes(ids[p], t, ids[q], Used(logs[q].groups), starts[q], u)
            || Takes(ids[q], u, ids[p], Used(logs[p].groups), starts[p], t)
    ensures Plain(ids[p]) && Plain(ids[q]) ==>
              && !Takes(ids[p], t, ids[q], Used(logs[q].groups), starts[q], u)
              && !Takes(ids[q], u, ids[p], Used(logs[p].groups), starts[p], t)
  {
    hide FinalId, Takes, Follows, NoneTaken, Disambiguated, Unsplit, Repeated;
    assert GoodIds(logs[p], ids[p], starts[p]) && GoodIds(logs[q], ids[q], starts[q]);
    assert GoodCounters(logs[p], ids[p], starts[p], starts[q]);
    PlaysShareExactly(ids[p], Used(logs[p].groups), starts[p], t, ids[q], Used(logs[q].groups), starts[q], u);
  }

  /** What the events of a good log say: the outcome tells whether the host failed, or was skipped, or
      is fine, under the start of its task, which is under its play. */
  lemma EventsSay(logs: seq<PlayLog>, plays: seq<Play>, filename: string, p: nat, t: nat, i: nat)
    requires GoodLogs(logs, plays, filename) && p < |logs|
    requires t < |logs[p].groups| && i < |logs[p].groups[t]|
    ensures var log, pair := logs[p], logs[p].groups[t][i];
            && log.start.kind == PlayStart && log.start.uuid == log.start.parent == plays[p].id
            && log.stats.kind == Stats && log.stats.parent == filename
            && t < |plays[p].tasks| && pair.host in plays[p].tasks[t].hosts
            && var task, host := plays[p].tasks[t], plays[p].tasks[t].hosts[pair.host];
               && pair.start.kind == TaskStart && pair.start.parent == plays[p].id
               && (pair.outcome.kind == RunnerFailed <==> host.failed)
               && (pair.outcome.kind == RunnerSkipped <==> !host.failed && host.skipped)
               && (pair.outcome.kind == RunnerOk <==> !host.failed && !host.skipped)
               && pair.outcome.parent == pair.outcome.uuid == pair.start.uuid
               && pair.start.task == pair.outcome.task == task.item.name && pair.outcome.item == task.item
               && pair.start.action == pair.outcome.action == host.action
               && pair.start.stdout == pair.outcome.stdout == host.stdout
               && pair.outcome.stderr == if pair.outcome.kind == RunnerOk then "" else host.stderr
  {
    hide HostsOf;
    assert GoodLog(logs[p], plays[p], filename);
    assert HostPairs(logs[p].groups[t], plays[p], t, plays[p].tasks[t].hosts.Keys);
    assert GoodPair(logs[p].groups[t][i], plays[p]);
  }

  // ---------- The order of the events ----------

  /** The events before those of task t. */
  function EventsBefore(groups: seq<seq<Pair>>, t: nat): nat
    requires t <= |groups|
  {
    if t == 0 then 0 else EventsBefore(groups, t - 1) + 2 * |groups[t - 1]|
  }

  lemma {:induction false} EventsBeforeFront(groups: seq<seq<Pair>>, t: nat)
    requires t < |groups|
    ensures EventsBefore(groups[..|groups| - 1], t) == EventsBefore(groups, t)
  {
    if t > 0 {
      EventsBeforeFront(groups, t - 1);
    }
  }

  lemma {:induction false} EventsBeforeGrows(groups: seq<seq<Pair>>, t: nat, u: nat)
    requires t <= u <= |groups|
    ensures EventsBefore(groups, t) <= EventsBefore(groups, u)
  {
    if t < u {
      EventsBeforeGrows(groups, t, u - 1);
    }
  }

  lemma {:induction false} PairAt(pairs: seq<Pair>, i: nat)
    requires i < |pairs|
    ensures PairEvents(pairs)[2 * i] == pairs[i].start && PairEvents(pairs)[2 * i + 1] == pairs[i].outcome
  {
    if i < |pairs| - 1 {
      PairAt(pairs[..|pairs| - 1], i);
    }
  }

  lemma {:induction false} GroupLength(groups: seq<seq<Pair>>)
    ensures |GroupEvents(groups)| == EventsBefore(groups, |groups|)
  {
    if groups != [] {
      GroupLength(groups[..|groups| - 1]);
      EventsBeforeFront(groups, |groups| - 1);
    }
  }

  lemma {:induction false} GroupAt(groups: seq<seq<Pair>>, t: nat, i: nat)
    requires t < |groups| && i < |groups[t]|
    ensures var k := EventsBefore(groups, t) + 2 * i;
            && k + 1 < |GroupEvents(groups)|
            && GroupEvents(groups)[k] == groups[t][i].start && GroupEvents(groups)[k + 1] == groups[t][i].outcome
  {
    var front := groups[..|groups| - 1];
    EventsBeforeFront(groups, t);
    GroupLength(front);
    EventsBeforeFront(groups, |groups| - 1);
    if t < |groups| - 1 {
      GroupAt(front, t, i);
    } else {
      PairAt(groups[t], i);
    }
  }

  /** The events before those of play p. */
  function PlaysBefore(logs: seq<PlayLog>, p: nat): nat
    requires p <= |logs|
  {
    if p == 0 then 0 else PlaysBefore(logs, p - 1) + |PlayEvents(logs[p - 1])|
  }

  lemma {:induction false} PlaysBeforeFront(logs: seq<PlayLog>, p: nat)
    requires p < |logs|
    ensures PlaysBefore(logs[..|logs| - 1], p) == PlaysBefore(logs, p)
  {
    if p > 0 {
      PlaysBeforeFront(logs, p - 1);
    }
  }

  lemma {:induction false} PlaysBeforeGrows(logs: seq<PlayLog>, p: nat, q: nat)
    requires p <= q <= |logs|
    ensures PlaysBefore(logs, p) <= PlaysBefore(logs, q)
  {
    if p < q {
      PlaysBeforeGrows(logs, p, q - 1);
    }
  }

  lemma {:induction false} AllLength(logs: seq<PlayLog>)
    ensures |AllEvents(logs)| == PlaysBefore(logs, |logs|)
  {
    hide PlayEvents;
    if logs != [] {
      AllLength(logs[..|logs| - 1]);
      PlaysBeforeFront(logs, |logs| - 1);
    }
  }

  lemma {:induction false} PlayAt(logs: seq<PlayLog>, p: nat, k: nat)
    requires p < |logs| && k < |PlayEvents(logs[p])|
    ensures PlaysBefore(logs, p) + k < |AllEvents(logs)|
    ensures AllEvents(logs)[PlaysBefore(logs, p) + k] == PlayEvents(logs[p])[k]
  {
    hide PlayEvents;
    var front := logs[..|logs| - 1];
    PlaysBeforeFront(logs, p);
    AllLength(front);
    PlaysBeforeFront(logs, |logs| - 1);
    if p < |logs| - 1 {
      PlayAt(front, p, k);
    }
  }

  /** Where the events of one pair, and of its play, stand in the log. */
  lemma PlacesOf(logs: seq<PlayLog>, p: nat, t: nat, i: nat)
    requires Counted(AllEvents(logs)) && p < |logs| && t < |logs[p].groups| && i < |logs[p].groups[t]|
    ensures var base, k, pair := PlaysBefore(logs, p), EventsBefore(logs[p].groups, t) + 2 * i, logs[p].groups[t][i];
            && pair.start.counter == base + k + 2 && pair.outcome.counter == base + k + 3
            && k + 2 <= EventsBefore(logs[p].groups, |logs[p].groups|)
  {
    hide AllEvents, PlayEvents, GroupEvents, EventsBefore, PlaysBefore;
    var log := logs[p];
    GroupAt(log.groups, t, i);
    GroupLength(log.groups);
    var k := EventsBefore(log.groups, t) + 2 * i;
    InPlay(log, k);
    InPlay(log, k + 1);
    PlayAt(logs, p, k + 1);
    PlayAt(logs, p, k + 2);
  }

  lemma InPlay(log: PlayLog, k: nat)
    requires k < |GroupEvents(log.groups)|
    ensures |PlayEvents(log)| == |GroupEvents(log.groups)| + 2 && PlayEvents(log)[k + 1] == GroupEvents(log.groups)[k]
  {
  }

  lemma PlacesOfPlay(logs: seq<PlayLog>, p: nat)
    requires Counted(AllEvents(logs)) && p < |logs|
    ensures var base, n := PlaysBefore(logs, p), EventsBefore(logs[p].groups, |logs[p].groups|);
            && logs[p].start.counter == base + 1 && logs[p].stats.counter == base + n + 2
            && PlaysBefore(logs, p + 1) == base + n + 2
  {
    GroupLength(logs[p].groups);
    PlayAt(logs, p, 0);
    PlayAt(logs, p, |PlayEvents(logs[p])| - 1);
  }

  /** The counters put the start of a play before all its pairs, each outcome directly behind the start
      of its task, the pairs in the order of the tasks, and the statistics last; and the plays follow
      one another. */
  lemma EventsInOrder(logs: seq<PlayLog>, p: nat, q: nat, t: nat, i: nat, u: nat, j: nat)
    requires Counted(AllEvents(logs)) && p < |logs|
    requires t < |logs[p].groups| && i < |logs[p].groups[t]|
    ensures var log, pair := logs[p], logs[p].groups[t][i];
            && log.start.counter < pair.start.counter
            && pair.outcome.counter == pair.start.counter + 1
            && pair.outcome.counter < log.stats.counter
    ensures u < |logs[p].groups| && j < |logs[p].groups[u]| && (t < u || (t == u && i < j)) ==>
              logs[p].groups[t][i].outcome.counter < logs[p].groups[u][j].start.counter
    ensures p < q < |logs| ==> logs[p].stats.counter < logs[q].start.counter
  {
    hide Counted, AllEvents, PlayEvents, GroupEvents;
    PlacesOf(logs, p, t, i);
    PlacesOfPlay(logs, p);
    if u < |logs[p].groups| && j < |logs[p].groups[u]| && (t < u || (t == u && i < j)) {
      PlacesOf(logs, p, u, j);
      if t < u {
        EventsBeforeGrows(logs[p].groups, t + 1, u);
      }
    }
    if p < q < |logs| {
      PlacesOfPlay(logs, q);
      PlaysBeforeGrows(logs, p + 1, q);
    }
  }

  /** The length of the log is fixed by the results tree: two events a play and two a host entry. */
  lemma {:induction false} LogLengthIs(logs: seq<PlayLog>, plays: seq<Play>, filename: string)
    requires GoodLogs(logs, plays, filename)
    ensures |AllEvents(logs)| == LogLength(plays, |logs|)
  {
    if logs != [] {
      var p := |logs| - 1;
      LogLengthIs(logs[..p], plays, filename);
      assert GoodLog(logs[p], plays[p], filename);
      GroupLengthIs(logs[p].groups, plays[p]);
    }
  }

  lemma {:induction false} GroupLengthIs(groups: seq<seq<Pair>>, play: Play)
    requires TasksDone(groups, play)
    ensures |GroupEvents(groups)| == 2 * HostEntries(play.tasks, |groups|)
  {
    if groups != [] {
      GroupLengthIs(groups[..|groups| - 1], play);
      assert HostPairs(groups[|groups| - 1], play, |groups| - 1, play.tasks[|groups| - 1].hosts.Keys);
    }
  }

  function HostEntries(tasks: seq<Task>, n: nat): nat
    requires n <= |tasks|
  {
    if n == 0 then 0 else HostEntries(tasks, n - 1) + |tasks[n - 1].hosts|
  }

  function LogLength(plays: seq<Play>, n: nat): nat
    requires n <= |plays|
  {
    if n == 0 then 0 else LogLength(plays, n - 1) + 2 + 2 * HostEntries(plays[n - 1].tasks, |plays[n - 1].tasks|)
  }

  /** No log ever has a playbook start event, although it is documented to be the first one. */
  lemma {:induction false} NeverPlaybookStart(logs: seq<PlayLog>, plays: seq<Play>, filename: string, event: Event)
    requires GoodLogs(logs, plays, filename) && event in AllEvents(logs)
    ensures event.kind != PlaybookStart
  {
    var p := |logs| - 1;
    if event in AllEvents(logs[..p]) {
      NeverPlaybookStart(logs[..p], plays, filename, event);
    } else {
      assert GoodLog(logs[p], plays[p], filename);
      if event in GroupEvents(logs[p].groups) {
        GroupKinds(logs[p].groups, plays[p], event);
      }
    }
  }

  lemma {:induction false} GroupKinds(groups: seq<seq<Pair>>, play: Play, event: Event)
    requires TasksDone(groups, play) && event in GroupEvents(groups)
    ensures event.kind != PlaybookStart
  {
    var t := |groups| - 1;
    if event in GroupEvents(groups[..t]) {
      GroupKinds(groups[..t], play, event);
    } else {
      assert HostPairs(groups[t], play, t, play.tasks[t].hosts.Keys);
      PairKinds(groups[t], play, event);
    }
  }

  lemma {:induction false} PairKinds(pairs: seq<Pair>, play: Play, event: Event)
    requires event in PairEvents(pairs) && forall i :: 0 <= i < |pairs| ==> GoodPair(pairs[i], play)
    ensures event.kind != PlaybookStart
  {
    var last := pairs[|pairs| - 1];
    if event == last.start || event == last.outcome {
      assert GoodPair(last, play);
    } else {
      PairKinds(pairs[..|pairs| - 1], play, event);
    }
  }

  class AnsibleDispatcher {
    var msgList: seq<Event>

    constructor ()
      ensures msgList == []
    {
      msgList := [];
    }

    /** Adds the events of one playbook to those collected so far. */
    method AddEvent(filename: string, playbookUUID: string, plays: seq<Play>)
      returns (all: seq<Event>, ghost logs: seq<PlayLog>)
      modifies this, TreeItems(plays)
      ensures all == msgList == old(msgList) + AllEvents(logs)
      ensures |logs| == |plays| && GoodLogs(logs, plays, filename) && Counted(AllEvents(logs))
    {
      var msgs;
      ghost var ids, starts;
      msgs, logs, ids, starts := EventTransformer(plays, filename, playbookUUID);
      msgList := msgList + msgs;
      all := msgList;
    }
  }
}
