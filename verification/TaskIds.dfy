/** How the event transformer renames the ids of repeated tasks. */
module TaskIds {
  type Counts = map<string, nat>

  function Digit(n: nat): char
    requires n < 10
  {
    "0123456789"[n]
  }

  /** Decimal digits of a number. */
  function Itoa(n: nat): (s: string)
    ensures s != []
  {
    if n < 10 then [Digit(n)] else Itoa(n / 10) + [Digit(n % 10)]
  }

  lemma {:induction false} ItoaInjective(m: nat, n: nat)
    requires Itoa(m) == Itoa(n)
    ensures m == n
  {
    var s, t := Itoa(m), Itoa(n);
    assert s[|s| - 1] == Digit(m % 10) && t[|t| - 1] == Digit(n % 10);
    if m >= 10 && n >= 10 {
      assert s[..|s| - 1] == Itoa(m / 10) && t[..|t| - 1] == Itoa(n / 10);
      ItoaInjective(m / 10, n / 10);
    }
  }

  /** The k-th name given to a repeated task. */
  function Numbered(id: string, k: nat): string
  {
    id + "_" + Itoa(k)
  }

  lemma {:induction false} ItoaIsPlain(n: nat)
    ensures '_' !in Itoa(n)
  {
    if n >= 10 {
      ItoaIsPlain(n / 10);
    }
  }

  /** The last underscore of a numbered id stands before the number. */
  lemma LastUnderscore(id: string, k: nat, i: nat)
    requires i < |Numbered(id, k)| && Numbered(id, k)[i] == '_'
    ensures i <= |id|
    ensures Numbered(id, k)[..|id|] == id && Numbered(id, k)[|id| + 1..] == Itoa(k)
  {
    ItoaIsPlain(k);
    assert forall j :: |id| < j < |Numbered(id, k)| ==> Numbered(id, k)[j] == Itoa(k)[j - |id| - 1] != '_';
  }

  /** A numbered id tells the id and the number, whatever the id. */
  lemma NumberedInjective(x: string, y: string, j: nat, k: nat)
    requires Numbered(x, j) == Numbered(y, k)
    ensures x == y && j == k
  {
    assert Numbered(x, j)[|x|] == '_' && Numbered(y, k)[|y|] == '_';
    LastUnderscore(x, j, |y|);
    LastUnderscore(y, k, |x|);
    ItoaInjective(j, k);
  }

  lemma NumberedHasUnderscore(id: string, k: nat)
    ensures '_' in Numbered(id, k)
  {
    assert Numbered(id, k)[|id|] == '_';
  }

  function Count(m: Counts, id: string): nat
  {
    if id in m then m[id] else 0
  }

  /** How often each id occurs. */
  function Occurrences(ids: seq<string>): Counts
  {
    if ids == [] then map[]
    else
      var before, id := Occurrences(ids[..|ids| - 1]), ids[|ids| - 1];
      before[id := Count(before, id) + 1]
  }

  lemma {:induction false} OccurrencesCount(ids: seq<string>, id: string)
    ensures Count(Occurrences(ids), id) == multiset(ids)[id]
  {
    if ids != [] {
      OccurrencesCount(ids[..|ids| - 1], id);
      assert ids == ids[..|ids| - 1] + [ids[|ids| - 1]];
    }
  }

  /** The renaming at a task start: the id and the counter of names already given. */
  function Rename(id: string, occurrences: Counts, duplicates: Counts): (string, Counts)
  {
    if Count(occurrences, id) > 1 then
      var k := Count(duplicates, id) + 1;
      (Numbered(id, k), duplicates[id := k])
    else (id, duplicates)
  }

  /** The state after the task starts of n hosts. */
  function RenameTimes(n: nat, id: string, occurrences: Counts, duplicates: Counts): (string, Counts)
  {
    if n == 0 then (id, duplicates)
    else
      var before := RenameTimes(n - 1, id, occurrences, duplicates);
      Rename(before.0, occurrences, before.1)
  }

  /** All of n hosts of a task get the id of the first one. */
  ghost predicate HostsShare(n: nat, id: string, occurrences: Counts, duplicates: Counts)
  {
    forall j :: 1 <= j <= n ==>
      RenameTimes(j, id, occurrences, duplicates).0 == RenameTimes(1, id, occurrences, duplicates).0
  }

  /** All hosts of a task get the same id exactly when the id given to the first one is not itself
      the id of several tasks of the play. */
  lemma {:induction false} HostsShareId(n: nat, id: string, occurrences: Counts, duplicates: Counts)
    requires n >= 2
    ensures HostsShare(n, id, occurrences, duplicates) <==>
            Count(occurrences, RenameTimes(1, id, occurrences, duplicates).0) <= 1
  {
    var first := RenameTimes(1, id, occurrences, duplicates);
    OneHost(id, occurrences, duplicates);
    if Count(occurrences, first.0) <= 1 {
      forall j | 1 <= j <= n
        ensures RenameTimes(j, id, occurrences, duplicates) == first
      {
        RenameStops(j, id, occurrences, duplicates);
      }
    } else {
      SecondDiffers(n, 2, id, occurrences, duplicates);
    }
  }

  lemma OneHost(id: string, occurrences: Counts, duplicates: Counts)
    ensures RenameTimes(1, id, occurrences, duplicates) == Rename(id, occurrences, duplicates)
  {
    assert RenameTimes(0, id, occurrences, duplicates) == (id, duplicates);
  }

  lemma SecondDiffers(n: nat, j: nat, id: string, occurrences: Counts, duplicates: Counts)
    requires n >= j == 2 && Count(occurrences, RenameTimes(1, id, occurrences, duplicates).0) > 1
    ensures !HostsShare(n, id, occurrences, duplicates)
    ensures RenameTimes(j, id, occurrences, duplicates).0 ==
            Numbered(RenameTimes(1, id, occurrences, duplicates).0,
                     Count(RenameTimes(1, id, occurrences, duplicates).1,
                           RenameTimes(1, id, occurrences, duplicates).0) + 1)
  {
    var first := RenameTimes(1, id, occurrences, duplicates);
    assert RenameTimes(j, id, occurrences, duplicates) == Rename(first.0, occurrences, first.1);
    assert |RenameTimes(j, id, occurrences, duplicates).0| > |first.0|;
  }

  lemma {:induction false} RenameStops(n: nat, id: string, occurrences: Counts, duplicates: Counts)
    requires n >= 1
    requires Count(occurrences, Rename(id, occurrences, duplicates).0) <= 1
    ensures RenameTimes(n, id, occurrences, duplicates) == Rename(id, occurrences, duplicates)
  {
    if n == 1 {
      assert RenameTimes(0, id, occurrences, duplicates) == (id, duplicates);
    } else {
      RenameStops(n - 1, id, occurrences, duplicates);
    }
  }

  ghost predicate Plain(ids: seq<string>)
  {
    forall k :: 0 <= k < |ids| ==> '_' !in ids[k]
  }

  /** The id belongs to several tasks of the play. */
  predicate Repeated(ids: seq<string>, id: string)
  {
    Count(Occurrences(ids), id) > 1
  }

  /** No name that a repeated task can get belongs to several tasks itself. */
  ghost predicate Unsplit(ids: seq<string>)
  {
    forall id, k: nat :: Repeated(ids, id) ==> !Repeated(ids, Numbered(id, k))
  }

  lemma {:induction false} OccurrencesArePlain(ids: seq<string>, id: string)
    requires Plain(ids) && id in Occurrences(ids)
    ensures '_' !in id
  {
    if ids != [] && id != ids[|ids| - 1] {
      OccurrencesArePlain(ids[..|ids| - 1], id);
    }
  }

  lemma PlainIsUnsplit(ids: seq<string>)
    requires Plain(ids)
    ensures Unsplit(ids)
  {
    forall id, k: nat | Repeated(ids, id)
      ensures !Repeated(ids, Numbered(id, k))
    {
      NumberedHasUnderscore(id, k);
      if Repeated(ids, Numbered(id, k)) {
        OccurrencesArePlain(ids, Numbered(id, k));
      }
    }
  }

  /** One renaming is then all a task gets, however many hosts it has. */
  lemma RenamedOnce(n: nat, ids: seq<string>, id: string, duplicates: Counts)
    requires n >= 1 && Unsplit(ids)
    ensures RenameTimes(n, id, Occurrences(ids), duplicates) == Rename(id, Occurrences(ids), duplicates)
  {
    assert Repeated(ids, id) ==> !Repeated(ids, Numbered(id, Count(duplicates, id) + 1));
    RenameStops(n, id, Occurrences(ids), duplicates);
  }

  /** With underscores in the original ids the hosts of one task can end up under different ids: of
      the tasks "a", "a", "a_1" and "a_1", the first, when it has two hosts. */
  lemma UnderscoreSplitsHosts()
    ensures !HostsShare(2, "a", Occurrences(["a", "a", "a_1", "a_1"]), map[])
  {
    var ids := ["a", "a", "a_1", "a_1"];
    OccurrencesCount(ids, "a");
    OccurrencesCount(ids, "a_1");
    var occurrences := Occurrences(ids);
    assert Count(occurrences, "a") == 2 && Count(occurrences, "a_1") == 2;
    OneHost("a", occurrences, map[]);
    assert Itoa(1) == "1" && Numbered("a", 1) == "a_1";
    HostsShareId(2, "a", occurrences, map[]);
  }

  // ---------- The tasks of one play ----------

  lemma RepeatedOccurs(ids: seq<string>, j: nat, k: nat)
    requires j < k < |ids| && ids[j] == ids[k]
    ensures Repeated(ids, ids[j])
  {
    OccurrencesCount(ids, ids[j]);
    assert ids == ids[..k] + ids[k..];
    assert ids[j] == ids[..k][j] && ids[k] == ids[k..][0];
    assert ids[j] in multiset(ids[..k]) && ids[j] in multiset(ids[k..]);
  }

  /** How many of the first n tasks have the id, and a host. */
  function UsedCount(ids: seq<string>, used: seq<bool>, id: string, n: nat): nat
    requires n <= |ids| == |used|
  {
    if n == 0 then 0
    else UsedCount(ids, used, id, n - 1) + (if ids[n - 1] == id && used[n - 1] then 1 else 0)
  }

  lemma {:induction false} UsedCountGrows(ids: seq<string>, used: seq<bool>, id: string, m: nat, n: nat)
    requires m <= n <= |ids| == |used|
    ensures UsedCount(ids, used, id, m) <= UsedCount(ids, used, id, n)
  {
    if m < n {
      UsedCountGrows(ids, used, id, m, n - 1);
    }
  }

  /** The number of a repeated task, counted on from where the play starts. */
  function NumberOf(ids: seq<string>, used: seq<bool>, start: Counts, t: nat): nat
    requires t < |ids| == |used|
  {
    Count(start, ids[t]) + UsedCount(ids, used, ids[t], t + 1)
  }

  /** The id a task with a host ends up with. */
  function FinalId(ids: seq<string>, used: seq<bool>, start: Counts, t: nat): string
    requires t < |ids| == |used|
  {
    if Repeated(ids, ids[t]) then Numbered(ids[t], NumberOf(ids, used, start, t)) else ids[t]
  }

  /** The counters once n tasks are done. */
  ghost predicate CountedOn(ids: seq<string>, used: seq<bool>, start: Counts, n: nat, now: Counts)
    requires n <= |ids| == |used|
  {
    forall id :: Count(now, id) == Count(start, id) + if Repeated(ids, id) then UsedCount(ids, used, id, n) else 0
  }

  /** The hosts of the next task give it its final id, and the counters go on by one. */
  lemma NextNumber(ids: seq<string>, used: seq<bool>, start: Counts, t: nat, duplicates: Counts,
                   hosts: nat, name: string, duplicates': Counts)
    requires Unsplit(ids) && t < |ids| == |used| && used[t] == (hosts > 0)
    requires CountedOn(ids, used, start, t, duplicates)
    requires (name, duplicates') == RenameTimes(hosts, ids[t], Occurrences(ids), duplicates)
    ensures CountedOn(ids, used, start, t + 1, duplicates')
    ensures name == if hosts > 0 then FinalId(ids, used, start, t) else ids[t]
  {
    hide Unsplit, Numbered;
    if hosts > 0 {
      RenamedOnce(hosts, ids, ids[t], duplicates);
    }
    assert Count(duplicates, ids[t]) ==
           Count(start, ids[t]) + if Repeated(ids, ids[t]) then UsedCount(ids, used, ids[t], t) else 0;
    forall id
      ensures Count(duplicates', id) ==
              Count(start, id) + if Repeated(ids, id) then UsedCount(ids, used, id, t + 1) else 0
    {
      assert Count(duplicates, id) == Count(start, id) + if Repeated(ids, id) then UsedCount(ids, used, id, t) else 0;
    }
  }

  /** The id of one task, which is not repeated, is the numbered form that another one gets. */
  ghost predicate Takes(ids: seq<string>, t: nat, ids': seq<string>, used: seq<bool>, start: Counts, u: nat)
    requires t < |ids| && u < |ids'| == |used|
  {
    && !Repeated(ids, ids[t]) && Repeated(ids', ids'[u])
    && ids[t] == Numbered(ids'[u], NumberOf(ids', used, start, u))
  }

  /** No task with a host has the id that another one gets. */
  ghost predicate NoneTaken(ids: seq<string>, used: seq<bool>, start: Counts)
    requires |ids| == |used|
  {
    forall t, u :: 0 <= t < |ids| && 0 <= u < |ids| && used[t] && used[u] ==> !Takes(ids, t, ids, used, start, u)
  }

  ghost predicate FinalIdsDiffer(ids: seq<string>, used: seq<bool>, start: Counts)
    requires |ids| == |used|
  {
    forall t, u :: 0 <= t < u < |ids| && used[t] && used[u] ==>
      FinalId(ids, used, start, t) != FinalId(ids, used, start, u)
  }

  lemma SameFinalId(ids: seq<string>, used: seq<bool>, start: Counts, t: nat, u: nat)
    requires t < u < |ids| == |used| && used[t] && used[u]
    ensures FinalId(ids, used, start, t) == FinalId(ids, used, start, u) <==>
            Takes(ids, t, ids, used, start, u) || Takes(ids, u, ids, used, start, t)
  {
    hide Numbered;
    if ids[t] == ids[u] {
      RepeatedOccurs(ids, t, u);
      UsedCountGrows(ids, used, ids[t], t + 1, u);
    }
    if Repeated(ids, ids[t]) && Repeated(ids, ids[u]) && FinalId(ids, used, start, t) == FinalId(ids, used, start, u) {
      NumberedInjective(ids[t], ids[u], NumberOf(ids, used, start, t), NumberOf(ids, used, start, u));
    }
  }

  /** The tasks of a play that have a host end up with different ids if and only if no one that is not
      repeated has the id a repeated one gets. */
  lemma NumberingDistinguishes(ids: seq<string>, used: seq<bool>, start: Counts)
    requires |ids| == |used|
    ensures FinalIdsDiffer(ids, used, start) <==> NoneTaken(ids, used, start)
    ensures Plain(ids) ==> NoneTaken(ids, used, start)
  {
    hide FinalId, Takes;
    if FinalIdsDiffer(ids, used, start) {
      forall t, u | 0 <= t < |ids| && 0 <= u < |ids| && used[t] && used[u]
        ensures !Takes(ids, t, ids, used, start, u)
      {
        if t < u {
          SameFinalId(ids, used, start, t, u);
        } else if u < t {
          SameFinalId(ids, used, start, u, t);
        } else {
          TakesAnother(ids, used, start, t);
        }
      }
    }
    if NoneTaken(ids, used, start) {
      forall t, u | 0 <= t < u < |ids| && used[t] && used[u]
        ensures FinalId(ids, used, start, t) != FinalId(ids, used, start, u)
      {
        SameFinalId(ids, used, start, t, u);
      }
    }
    if Plain(ids) {
      forall t, u | 0 <= t < |ids| && 0 <= u < |ids|
        ensures !Takes(ids, t, ids, used, start, u)
      {
        PlainTakesNone(ids, t, ids, used, start, u);
      }
    }
  }

  lemma TakesAnother(ids: seq<string>, used: seq<bool>, start: Counts, t: nat)
    requires t < |ids| == |used|
    ensures !Takes(ids, t, ids, used, start, t)
  {
  }

  lemma PlainTakesNone(ids: seq<string>, t: nat, ids': seq<string>, used: seq<bool>, start: Counts, u: nat)
    requires Plain(ids) && t < |ids| && u < |ids'| == |used|
    ensures !Takes(ids, t, ids', used, start, u)
  {
    NumberedHasUnderscore(ids'[u], NumberOf(ids', used, start, u));
  }

  // ---------- The tasks of different plays ----------

  /** A later play starts with counters that have counted the tasks of this one. */
  ghost predicate Follows(ids: seq<string>, used: seq<bool>, start: Counts, later: Counts)
    requires |ids| == |used|
  {
    forall id :: Repeated(ids, id) ==> Count(start, id) + UsedCount(ids, used, id, |ids|) <= Count(later, id)
  }

  /** Tasks of different plays end up with one id if and only if they started with it and neither
      play repeats it, or one of them has, unrepeated, the id that the other one gets. */
  lemma PlaysShareExactly(ids: seq<string>, used: seq<bool>, start: Counts, t: nat,
                          ids': seq<string>, used': seq<bool>, later: Counts, u: nat)
    requires t < |ids| == |used| && u < |ids'| == |used'| && used[t] && used'[u]
    requires Follows(ids, used, start, later)
    ensures FinalId(ids, used, start, t) == FinalId(ids', used', later, u) <==>
            || (ids[t] == ids'[u] && !Repeated(ids, ids[t]) && !Repeated(ids', ids'[u]))
            || Takes(ids, t, ids', used', later, u)
            || Takes(ids', u, ids, used, start, t)
    ensures Plain(ids) && Plain(ids') ==>
              !Takes(ids, t, ids', used', later, u) && !Takes(ids', u, ids, used, start, t)
  {
    hide Numbered;
    if Repeated(ids, ids[t]) && Repeated(ids', ids'[u]) {
      UsedCountGrows(ids, used, ids[t], t + 1, |ids|);
      UsedCountGrows(ids', used', ids'[u], 0, u);
      if FinalId(ids, used, start, t) == FinalId(ids', used', later, u) {
        NumberedInjective(ids[t], ids'[u], NumberOf(ids, used, start, t), NumberOf(ids', used', later, u));
      }
    }
    if Plain(ids) && Plain(ids') {
      PlainTakesNone(ids, t, ids', used', later, u);
      PlainTakesNone(ids', u, ids, used, start, t);
    }
  }

  /** Counters never go back. */
  ghost predicate GoOn(before: Counts, now: Counts)
  {
    forall id :: Count(before, id) <= Count(now, id)
  }

  lemma {:induction false} RenamingGoesOn(n: nat, id: string, occurrences: Counts, duplicates: Counts)
    ensures GoOn(duplicates, RenameTimes(n, id, occurrences, duplicates).1)
  {
    if n > 0 {
      RenamingGoesOn(n - 1, id, occurrences, duplicates);
    }
  }

  /** With underscores two tasks can end up under one id: of the tasks "a", "a" and "a_1", each with
      one host, the first is renamed to the id that the third one has and keeps. */
  lemma UnderscoreMergesTasks()
    ensures var occurrences := Occurrences(["a", "a", "a_1"]);
            var first := RenameTimes(1, "a", occurrences, map[]);
            var second := RenameTimes(1, "a", occurrences, first.1);
            var third := RenameTimes(1, "a_1", occurrences, second.1);
            first.0 == third.0 == "a_1" != second.0
  {
    var ids := ["a", "a", "a_1"];
    var occurrences := Occurrences(ids);
    OccurrencesCount(ids, "a");
    OccurrencesCount(ids, "a_1");
    assert Count(occurrences, "a") == 2 && Count(occurrences, "a_1") == 1;
    OneHost("a", occurrences, map[]);
    assert Itoa(1) == "1" && Numbered("a", 1) == "a_1";
    var first := Rename("a", occurrences, map[]);
    assert first == ("a_1", map["a" := 1]);
    OneHost("a", occurrences, first.1);
    var second := Rename("a", occurrences, first.1);
    assert Itoa(2) == "2" && second.0 == "a_2";
    OneHost("a_1", occurrences, second.1);
  }
}
