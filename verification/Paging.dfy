/** How the remote writer pages through the metrics store: a transition system whose steps are
    the iterations of the paging loop, observed over any number of calls and restarts, and the
    proofs that no sample is lost and, while nothing fails, none is repeated.
    Instants are whole milliseconds. */
module Paging {
  import opened TimeSeries
  import opened Delivery

  /** The zero instant of the time library (start of year 1), also what the store reports
      when it holds nothing. */
  const ZERO: int := -62135596800000

  const DEVICE_LABEL := "edgedeviceid"

  datatype Block = Block(minTime: int, maxTime: int)

  /** The store as one iteration of the loop sees it. */
  datatype View = View(
    samples: set<Sample>,
    select: (int, int) -> seq<Series>,
    blocks: seq<Block>,
    headMin: int,
    minTime: int,
    maxTime: int,
    minOk: bool,
    selectOk: bool)

  ghost predicate Covered(v: View, t: int)
  {
    (exists b :: b in v.blocks && b.minTime <= t <= b.maxTime) || v.headMin <= t <= v.maxTime
  }

  ghost predicate LeastCovered(v: View, t: int, r: int)
  {
    t <= r && Covered(v, r) && forall u :: t <= u < r ==> !Covered(v, u)
  }

  ghost predicate BlocksInOrder(v: View)
  {
    && (forall j, k :: 0 <= j < k < |v.blocks| ==> v.blocks[j].minTime <= v.blocks[k].minTime)
    && (forall b :: b in v.blocks ==> b.minTime <= b.maxTime && b.minTime <= v.headMin)
  }

  /** The samples with a time in a < time <= b. */
  ghost function Window(v: View, a: int, b: int): set<Sample>
  {
    set x | x in v.samples && a < x.point.time <= b
  }

  /** The closed range reaches into a block or the head. */
  ghost predicate Meets(v: View, a: int, b: int)
  {
    exists t :: a <= t <= b && Covered(v, t)
  }

  /** The samples of a closed range that reading it does not return: an error while reading ends
      the result early, and is not reported. */
  ghost function Unread(v: View, a: int, b: int): set<Sample>
  {
    set x | x in Window(v, a - 1, b) && x !in Flatten(v.select(a, b))
  }

  /** Reading a range returns samples of the range only, none twice, and no series at all outside
      the blocks and the head. */
  ghost predicate GoodRead(v: View, a: int, b: int)
  {
    && HoldsExactly(Flatten(v.select(a, b)), Window(v, a - 1, b) - Unread(v, a, b))
    && (!Meets(v, a, b) ==> v.select(a, b) == [])
  }

  /** Reading a range was not cut short. */
  ghost predicate CompleteRead(v: View, a: int, b: int)
  {
    HoldsExactly(Flatten(v.select(a, b)), Window(v, a - 1, b))
  }

  /** What the writer relies on whenever the store holds something. */
  ghost predicate WellFormed(v: View)
  {
    v.maxTime > ZERO ==>
      && BlocksInOrder(v)
      && v.headMin <= v.maxTime
      && v.minTime <= v.maxTime
      && (forall x :: x in v.samples ==> v.minTime <= x.point.time && Covered(v, x.point.time))
      && (forall a, b :: GoodRead(v, a, b))
  }

  /** Between two observations the store may drop samples and reorganize its blocks, but it
      gains samples only above every MaxTime seen so far. */
  ghost predicate Grows(before: View, seen: int, after: View)
  {
    forall x :: x in after.samples && x.point.time <= seen ==> x in before.samples
  }

  // ---------- The device label ----------

  function Tag(x: Sample, device: string): Sample
  {
    x.(labels := x.labels[DEVICE_LABEL := device])
  }

  function TagSamples(samples: seq<Sample>, device: string): (tagged: seq<Sample>)
    ensures |tagged| == |samples|
  {
    seq(|samples|, i requires 0 <= i < |samples| => Tag(samples[i], device))
  }

  function TagSeries(series: seq<Series>, device: string): (tagged: seq<Series>)
    ensures |tagged| == |series|
  {
    seq(|series|, i requires 0 <= i < |series| =>
      series[i].(labels := series[i].labels[DEVICE_LABEL := device]))
  }

  lemma {:induction false} TagFlattenFirst(series: seq<Series>, i: nat, device: string)
    requires i <= |series|
    ensures FlattenFirst(TagSeries(series, device), i) == TagSamples(FlattenFirst(series, i), device)
  {
    if i > 0 {
      TagFlattenFirst(series, i - 1, device);
      var s := series[i - 1];
      var t := TagSeries(series, device)[i - 1];
      assert Label(t.labels, t.points) == TagSamples(Label(s.labels, s.points), device);
    }
  }

  // ---------- Steps ----------

  /** What is in the cursor file; anything unreadable counts as no cursor. */
  datatype Saved = Nothing | At(time: int)

  function Load(saved: Saved): int
  {
    match saved
    case Nothing => ZERO
    case At(time) => time
  }

  datatype SaveOutcome = Stored | Kept | Emptied

  function Save(saved: Saved, outcome: SaveOutcome, time: int): Saved
  {
    match outcome
    case Stored => At(time)
    case Kept => saved
    case Emptied => Nothing
  }

  datatype Env = Env(device: string, duration: nat)

  datatype Cursor = Cursor(
    last: int,             // LastWrite
    hadEmpty: bool,        // the previous range of this call was empty
    saved: Saved,
    log: seq<Attempt>,     // everything ever sent
    view: View,            // the store when last observed
    seen: int)             // the highest MaxTime observed, at least the first cursor

  datatype Step =
    | Turn(view: View, start: int, end: int, n: int, groups: seq<seq<Attempt>>, save: SaveOutcome)
    | GiveUp(view: View, start: int, end: int, n: int, groups: seq<seq<Attempt>>)
    | Crash(view: View, start: int, end: int, n: int)   // a slice out of range ends the process
    | Stall(view: View)
    | Restart

  function RangeSeries(env: Env, view: View, start: int, end: int): seq<Series>
  {
    TagSeries(view.select(start, end), env.device)
  }

  ghost predicate ValidRange(env: Env, s: Cursor, view: View, start: int, end: int)
  {
    && view.maxTime > s.last && view.minOk && view.selectOk
    && (if s.hadEmpty then LeastCovered(view, s.last + 1, start)
        else start == if s.last + 1 < view.minTime then view.minTime else s.last + 1)
    && end == Min(start + env.duration, view.maxTime)
  }

  ghost predicate Observes(s: Cursor, view: View)
  {
    WellFormed(view) && Grows(s.view, s.seen, view)
  }

  /** The batching loop gets through the series, and these are the attempts for its requests. */
  ghost predicate Delivers(groups: seq<seq<Attempt>>, series: seq<Series>, n: int, done: bool)
  {
    Sendable(series, n) && IsDelivery(groups, Due(series, n), done)
  }

  ghost predicate ValidStep(env: Env, s: Cursor, step: Step)
  {
    match step
    case Turn(view, start, end, n, groups, _) =>
      && Observes(s, view) && n != 0 && ValidRange(env, s, view, start, end)
      && Delivers(groups, RangeSeries(env, view, start, end), n, true)
    case GiveUp(view, start, end, n, groups) =>
      && Observes(s, view) && n != 0 && ValidRange(env, s, view, start, end)
      && Delivers(groups, RangeSeries(env, view, start, end), n, false)
    case Crash(view, start, end, n) =>
      && Observes(s, view) && n != 0 && ValidRange(env, s, view, start, end)
      && !Sendable(RangeSeries(env, view, start, end), n)
    case Stall(view) =>
      Observes(s, view) && (view.maxTime <= s.last || !view.minOk || !view.selectOk)
    case Restart => true
  }

  ghost function Apply(s: Cursor, step: Step): Cursor
  {
    match step
    case Turn(view, start, end, _, groups, save) =>
      Cursor(end, view.select(start, end) == [], Save(s.saved, save, end), s.log + Concat(groups),
             view, Max(s.seen, view.maxTime))
    case GiveUp(view, _, _, _, groups) =>
      s.(hadEmpty := false, log := s.log + Concat(groups), view := view, seen := Max(s.seen, view.maxTime))
    case Crash(view, _, _, _) =>
      s.(hadEmpty := false, view := view, seen := Max(s.seen, view.maxTime))
    case Stall(view) =>
      s.(hadEmpty := false, view := view, seen := Max(s.seen, view.maxTime))
    case Restart =>
      s.(last := Load(s.saved), hadEmpty := false)
  }

  function Max(x: int, y: int): int { if x < y then y else x }

  /** The cursor after the first i steps. */
  ghost function After(s: Cursor, steps: seq<Step>, i: nat): Cursor
    requires i <= |steps|
  {
    if i == 0 then s else Apply(After(s, steps, i - 1), steps[i - 1])
  }

  ghost predicate ValidFirst(env: Env, s: Cursor, steps: seq<Step>, n: nat)
    requires n <= |steps|
  {
    n == 0 || (ValidFirst(env, s, steps, n - 1) && ValidStep(env, After(s, steps, n - 1), steps[n - 1]))
  }

  /** Every step is one the cursor it starts from allows. */
  ghost predicate ValidRun(env: Env, s: Cursor, steps: seq<Step>)
  {
    ValidFirst(env, s, steps, |steps|)
  }

  lemma {:induction false} ValidAt(env: Env, s: Cursor, steps: seq<Step>, n: nat, i: nat)
    requires i <= n <= |steps| && ValidFirst(env, s, steps, n)
    ensures ValidFirst(env, s, steps, i)
    ensures i < n ==> ValidStep(env, After(s, steps, i), steps[i])
  {
    hide ValidStep, After;
    if i < n - 1 {
      ValidAt(env, s, steps, n - 1, i);
    }
  }

  lemma {:induction false} AfterPrefix(s: Cursor, steps: seq<Step>, more: seq<Step>, i: nat)
    requires i <= |steps|
    ensures After(s, steps + more, i) == After(s, steps, i)
  {
    hide Apply;
    if i > 0 {
      AfterPrefix(s, steps, more, i - 1);
    }
  }

  lemma {:induction false} ValidPrefix(env: Env, s: Cursor, steps: seq<Step>, more: seq<Step>, i: nat)
    requires i <= |steps|
    ensures ValidFirst(env, s, steps + more, i) == ValidFirst(env, s, steps, i)
  {
    hide ValidStep, After;
    if i > 0 {
      ValidPrefix(env, s, steps, more, i - 1);
      AfterPrefix(s, steps, more, i - 1);
    }
  }

  lemma RunSnoc(env: Env, s: Cursor, steps: seq<Step>, step: Step)
    requires ValidRun(env, s, steps) && ValidStep(env, After(s, steps, |steps|), step)
    ensures ValidRun(env, s, steps + [step])
    ensures After(s, steps + [step], |steps| + 1) == Apply(After(s, steps, |steps|), step)
  {
    hide ValidStep, Apply;
    AfterPrefix(s, steps, [step], |steps|);
    ValidPrefix(env, s, steps, [step], |steps|);
  }

  // ---------- Progress ----------

  ghost predicate Sound(s: Cursor)
  {
    ZERO <= Load(s.saved) <= s.last <= s.seen
  }

  /** Every range tried lies above the cursor and within the store, and after an empty range the
      next one starts inside a block or the head. */
  lemma RangeAdvances(env: Env, s: Cursor, view: View, start: int, end: int)
    requires ZERO <= s.last && WellFormed(view) && ValidRange(env, s, view, start, end)
    ensures s.last < start <= end <= view.maxTime
    ensures end <= start + env.duration
    ensures s.hadEmpty ==> Covered(view, start)
  {
    assert Covered(view, view.maxTime);
  }

  /** A range starts at the first instant above the cursor from which anything can be there: not before
      MinTime, or after an empty range inside a block or the head. It has its full length unless it
      ends at MaxTime. */
  lemma RangeIsFull(env: Env, s: Cursor, view: View, start: int, end: int)
    requires ValidRange(env, s, view, start, end)
    ensures !s.hadEmpty ==> start == Max(s.last + 1, view.minTime)
    ensures s.hadEmpty ==> Covered(view, start) && forall t :: s.last < t < start ==> !Covered(view, t)
    ensures end == start + env.duration || (end < start + env.duration && end == view.maxTime)
    ensures end <= view.maxTime
  {
  }

  /** No sample lies between the cursor and the start of the next range. */
  lemma NothingSkipped(env: Env, s: Cursor, view: View, start: int, end: int)
    requires ZERO <= s.last && WellFormed(view) && ValidRange(env, s, view, start, end)
    ensures Window(view, s.last, end) == Window(view, start - 1, end)
  {
    forall x | x in Window(view, s.last, end)
      ensures start <= x.point.time
    {
      assert Covered(view, x.point.time);
    }
    RangeAdvances(env, s, view, start, end);
  }

  /** The persisted cursor is never ahead of LastWrite, and only a restart moves LastWrite back. */
  lemma StepKeepsSound(env: Env, s: Cursor, step: Step)
    requires Sound(s) && ValidStep(env, s, step)
    ensures Sound(Apply(s, step))
    ensures step.Restart? || s.last <= Apply(s, step).last
    ensures step.Turn? ==> s.last + 1 <= Apply(s, step).last <= step.view.maxTime
  {
    if step.Turn? {
      RangeAdvances(env, s, step.view, step.start, step.end);
    }
  }

  // ---------- At least once, over calls, failures, growth and restarts ----------

  /** The samples of the ranges completed in the first i steps that reading did not return. */
  ghost function Missed(steps: seq<Step>, i: nat): set<Sample>
    requires i <= |steps|
  {
    if i == 0 then {} else Missed(steps, i - 1) + MissedBy(steps[i - 1])
  }

  ghost function MissedBy(step: Step): set<Sample>
  {
    if step.Turn? then Unread(step.view, step.start, step.end) else {}
  }

  /** Every sample the store holds between the first cursor and LastWrite, other than those missed,
      has been accepted or refused for good. */
  ghost predicate Delivered(env: Env, s: Cursor, from: int, missed: set<Sample>)
  {
    forall x :: x in s.view.samples && from < x.point.time <= s.last && x !in missed ==>
      Settled(s.log, Tag(x, env.device))
  }

  lemma DeliveredAtStart(env: Env, s: Cursor)
    ensures Delivered(env, s, s.last, {})
  {
  }

  lemma GrowthKeepsDelivered(env: Env, s: Cursor, from: int, missed: set<Sample>, view: View,
                             more: seq<Attempt>, last: int)
    requires Delivered(env, s, from, missed) && Grows(s.view, s.seen, view) && last <= s.last <= s.seen
    ensures forall x :: x in view.samples && from < x.point.time <= last && x !in missed ==>
              Settled(s.log + more, Tag(x, env.device))
  {
    forall x | x in view.samples && from < x.point.time <= last && x !in missed
      ensures Settled(s.log + more, Tag(x, env.device))
    {
      SettledStays(s.log, more, Tag(x, env.device));
    }
  }

  /** A completed range settles its samples at the receiver, each exactly once and in order. */
  lemma TurnSettles(env: Env, s: Cursor, step: Step)
    requires step.Turn? && ValidStep(env, s, step)
    ensures SettledSamples(Concat(step.groups)) ==
            TagSamples(Flatten(step.view.select(step.start, step.end)), env.device)
  {
    var raw := step.view.select(step.start, step.end);
    var series := TagSeries(raw, env.device);
    DeliverySettles(step.groups, Due(series, step.n), true);
    RequestsFlatten(series, Effective(step.n));
    TagFlattenFirst(raw, |raw|, env.device);
  }

  lemma TurnDelivers(env: Env, s: Cursor, step: Step, x: Sample)
    requires ZERO <= s.last && step.Turn? && ValidStep(env, s, step)
    requires x in Window(step.view, s.last, step.end) && x !in MissedBy(step)
    ensures Settled(s.log + Concat(step.groups), Tag(x, env.device))
  {
    RangeAdvances(env, s, step.view, step.start, step.end);
    NothingSkipped(env, s, step.view, step.start, step.end);
    var samples := Flatten(step.view.select(step.start, step.end));
    assert x in samples;
    var i :| 0 <= i < |samples| && samples[i] == x;
    TurnSettles(env, s, step);
    assert TagSamples(samples, env.device)[i] == Tag(x, env.device);
    SettledAppend(s.log, Concat(step.groups));
    SettledSamplesAreSettled(s.log + Concat(step.groups), Tag(x, env.device));
  }

  lemma StepKeepsDelivered(env: Env, s: Cursor, step: Step, from: int, missed: set<Sample>)
    requires Sound(s) && Delivered(env, s, from, missed) && ValidStep(env, s, step)
    ensures Delivered(env, Apply(s, step), from, missed + MissedBy(step))
  {
    match step
    case Turn(view, start, end, n, groups, save) =>
      GrowthKeepsDelivered(env, s, from, missed, view, Concat(groups), s.last);
      forall x | x in view.samples && from < x.point.time <= end && x !in missed + MissedBy(step)
        ensures Settled(s.log + Concat(groups), Tag(x, env.device))
      {
        if s.last < x.point.time {
          TurnDelivers(env, s, step, x);
        }
      }
    case GiveUp(view, _, _, _, groups) =>
      GrowthKeepsDelivered(env, s, from, missed, view, Concat(groups), s.last);
    case Crash(view, _, _, _) =>
      GrowthKeepsDelivered(env, s, from, missed, view, [], s.last);
      assert s.log + [] == s.log;
    case Stall(view) =>
      GrowthKeepsDelivered(env, s, from, missed, view, [], s.last);
      assert s.log + [] == s.log;
    case Restart =>
  }

  /** At least once: whatever the client answers, whenever cursor writes fail and however often
      the process crashes or restarts, no sample is passed by the cursor without having been
      settled, unless the read of its range was cut short before it. */
  lemma {:induction false} AtLeastOnce(env: Env, s: Cursor, steps: seq<Step>, i: nat)
    requires Sound(s) && ValidRun(env, s, steps) && i <= |steps|
    ensures Sound(After(s, steps, i)) && Delivered(env, After(s, steps, i), s.last, Missed(steps, i))
  {
    hide ValidStep, Apply, Sound, Delivered, MissedBy;
    if i == 0 {
      DeliveredAtStart(env, s);
    } else {
      AtLeastOnce(env, s, steps, i - 1);
      ValidAt(env, s, steps, |steps|, i - 1);
      StepKeepsSound(env, After(s, steps, i - 1), steps[i - 1]);
      StepKeepsDelivered(env, After(s, steps, i - 1), steps[i - 1], s.last, Missed(steps, i - 1));
    }
  }

  /** Nothing is missed exactly when no read of a completed range was cut short. */
  lemma {:induction false} MissedNothing(env: Env, s: Cursor, steps: seq<Step>, i: nat)
    requires Sound(s) && ValidRun(env, s, steps) && i <= |steps|
    ensures Missed(steps, i) == {} <==>
            forall k :: 0 <= k < i && steps[k].Turn? ==> CompleteRead(steps[k].view, steps[k].start, steps[k].end)
  {
    hide ValidStep, MissedBy, CompleteRead;
    if i > 0 {
      MissedNothing(env, s, steps, i - 1);
      AtLeastOnce(env, s, steps, i - 1);
      ValidAt(env, s, steps, |steps|, i - 1);
      MissedByTurn(env, After(s, steps, i - 1), steps[i - 1]);
    }
  }

  lemma MissedByTurn(env: Env, s: Cursor, step: Step)
    requires Sound(s) && ValidStep(env, s, step)
    ensures MissedBy(step) == {} <==> (step.Turn? ==> CompleteRead(step.view, step.start, step.end))
  {
    if step.Turn? {
      assert GoodRead(step.view, step.start, step.end);
      var all := Window(step.view, step.start - 1, step.end);
      var unread := Unread(step.view, step.start, step.end);
      if multiset(all - unread) == multiset(all) {
        SameElements(all - unread, all);
      }
    }
  }

  lemma SameElements(a: set<Sample>, b: set<Sample>)
    requires multiset(a) == multiset(b)
    ensures a == b
  {
    forall x
      ensures x in a <==> x in b
    {
      assert x in multiset(a) <==> x in multiset(b);
    }
  }

  /** One sample at instant 1, in a store whose reads return nothing. */
  ghost function CutShortView(x: Sample): View
  {
    View({x}, (a, b) => [], [], 1, 1, 1, true, true)
  }

  /** A cut-short read does lose a sample: the only one of the store is not returned, the range counts
      as empty, and the cursor passes it although the receiver never got it. */
  lemma CutShortReadLosesSample(env: Env, x: Sample)
    requires x.point.time == 1
    ensures exists s, steps ::
              && Sound(s) && ValidRun(env, s, steps) && |steps| == 1
              && var t := After(s, steps, 1);
                 && x in t.view.samples && s.last < x.point.time <= t.last
                 && !Settled(t.log, Tag(x, env.device)) && x in Missed(steps, 1)
  {
    var v := CutShortView(x);
    var s := Cursor(0, false, At(0), [], v, 1);
    var step := Turn(v, 1, 1, 1, [], Stored);
    CutShortIsWellFormed(x);
    assert ValidFirst(env, s, [step], 0) && After(s, [step], 0) == s;
    assert RangeSeries(env, v, 1, 1) == [];
    assert ValidStep(env, s, step);
    assert After(s, [step], 1) == Apply(s, step);
    assert Missed([step], 1) == Missed([step], 0) + MissedBy(step);
    assert x in Window(v, 0, 1) && Flatten(v.select(1, 1)) == [];
    assert Concat([]) == [];
  }

  lemma CutShortIsWellFormed(x: Sample)
    requires x.point.time == 1
    ensures WellFormed(CutShortView(x))
  {
    var v := CutShortView(x);
    forall a, b
      ensures GoodRead(v, a, b)
    {
      assert Flatten(v.select(a, b)) == [];
      assert Window(v, a - 1, b) - Unread(v, a, b) == {};
    }
  }

  lemma StepOfRun(env: Env, s: Cursor, steps: seq<Step>, i: nat)
    requires Sound(s) && ValidRun(env, s, steps) && i < |steps|
    ensures var t := After(s, steps, i);
            && Sound(t) && ValidStep(env, t, steps[i])
            && (steps[i].Restart? || t.last <= After(s, steps, i + 1).last)
            && (steps[i].Turn? ==>
                  && t.last < steps[i].start <= steps[i].end <= steps[i].view.maxTime
                  && After(s, steps, i + 1).last == steps[i].end
                  && After(s, steps, i + 1).log == t.log + Concat(steps[i].groups))
  {
    AtLeastOnce(env, s, steps, i);
    ValidAt(env, s, steps, |steps|, i);
    StepKeepsSound(env, After(s, steps, i), steps[i]);
    if steps[i].Turn? {
      RangeAdvances(env, After(s, steps, i), steps[i].view, steps[i].start, steps[i].end);
    }
  }

  /** Without a restart in between, LastWrite never decreases. */
  lemma {:induction false} LastWriteGrows(env: Env, s: Cursor, steps: seq<Step>, i: nat, j: nat)
    requires Sound(s) && ValidRun(env, s, steps) && i <= j <= |steps|
    requires forall k :: i <= k < j ==> !steps[k].Restart?
    ensures After(s, steps, i).last <= After(s, steps, j).last
  {
    hide ValidStep, Apply;
    if i < j {
      LastWriteGrows(env, s, steps, i, j - 1);
      StepOfRun(env, s, steps, j - 1);
    }
  }

  ghost predicate Queries(step: Step)
  {
    step.Turn? || step.GiveUp? || step.Crash?
  }

  /** Holes are skipped exactly where they are found: directly after an empty range of the same call
      the next one starts at the first instant in a block or the head, and any other range directly
      above LastWrite, or at MinTime. */
  lemma SkipsExactlyAfterEmpty(env: Env, s: Cursor, steps: seq<Step>, i: nat)
    requires Sound(s) && ValidRun(env, s, steps) && i < |steps| && Queries(steps[i])
    requires i == 0 ==> !s.hadEmpty
    ensures var last, step := After(s, steps, i).last, steps[i];
            if i > 0 && steps[i - 1].Turn? && steps[i - 1].view.select(steps[i - 1].start, steps[i - 1].end) == [] then
              LeastCovered(step.view, last + 1, step.start)
            else step.start == Max(last + 1, step.view.minTime)
  {
    hide After, ValidStep, LeastCovered, Observes, Delivers;
    ValidAt(env, s, steps, |steps|, i);
    if i > 0 {
      AfterStep(s, steps, i);
      ValidAt(env, s, steps, |steps|, i - 1);
    } else {
      AfterNothing(s, steps);
    }
    QueriesValidRange(env, After(s, steps, i), steps[i]);
  }

  lemma AfterNothing(s: Cursor, steps: seq<Step>)
    ensures After(s, steps, 0) == s
  {
  }

  lemma AfterStep(s: Cursor, steps: seq<Step>, i: nat)
    requires 0 < i <= |steps|
    ensures After(s, steps, i) == Apply(After(s, steps, i - 1), steps[i - 1])
  {
    hide Apply;
  }

  lemma QueriesValidRange(env: Env, t: Cursor, step: Step)
    requires Queries(step) && ValidStep(env, t, step)
    ensures ValidRange(env, t, step.view, step.start, step.end)
  {
    hide Observes, Delivers, ValidRange;
  }

  // ---------- The cursor file ----------

  lemma {:induction false} KeptStays(s: Cursor, steps: seq<Step>, k: nat, i: nat)
    requires k <= i <= |steps|
    requires forall j :: k <= j < i && steps[j].Turn? ==> steps[j].save == Kept
    ensures After(s, steps, i).saved == After(s, steps, k).saved
  {
    if k < i {
      KeptStays(s, steps, k, i - 1);
    }
  }

  /** A restart goes on from the end of the last range whose cursor was stored, however many cursor
      writes failed since; from the zero instant when the last write that changed the file left nothing
      that can be read; and from where the file pointed at first when there was none. */
  lemma RestartReadsLastStored(s: Cursor, steps: seq<Step>, k: nat, i: nat)
    requires k <= i < |steps| && steps[i].Restart?
    requires forall j :: k < j < i && steps[j].Turn? ==> steps[j].save == Kept
    ensures steps[k].Turn? && steps[k].save == Stored ==> After(s, steps, i + 1).last == steps[k].end
    ensures steps[k].Turn? && steps[k].save == Emptied ==> After(s, steps, i + 1).last == -62135596800000
    ensures k == 0 && (steps[k].Turn? ==> steps[k].save == Kept) ==>
              && (s.saved.At? ==> After(s, steps, i + 1).last == s.saved.time)
              && (s.saved.Nothing? ==> After(s, steps, i + 1).last == -62135596800000)
  {
    hide After;
    AfterStep(s, steps, i + 1);
    if steps[k].Turn? {
      KeptStays(s, steps, k + 1, i);
      AfterStep(s, steps, k + 1);
    } else {
      KeptStays(s, steps, k, i);
    }
    AfterNothing(s, steps);
  }

  /** Of two consecutive queries of a call at least one reaches into a block or the head. */
  lemma NoTwoOutside(env: Env, s: Cursor, steps: seq<Step>, i: nat)
    requires Sound(s) && ValidRun(env, s, steps) && i + 1 < |steps|
    requires steps[i].Turn? && (steps[i + 1].Turn? || steps[i + 1].GiveUp? || steps[i + 1].Crash?)
    ensures || Meets(steps[i].view, steps[i].start, steps[i].end)
            || Meets(steps[i + 1].view, steps[i + 1].start, steps[i + 1].end)
  {
    hide ValidStep, Apply, Meets;
    StepOfRun(env, s, steps, i);
    StepOfRun(env, s, steps, i + 1);
    if !Meets(steps[i].view, steps[i].start, steps[i].end) {
      OutsideIsEmpty(env, After(s, steps, i), steps[i]);
      NextMeets(env, After(s, steps, i + 1), steps[i + 1]);
    }
  }

  lemma OutsideIsEmpty(env: Env, t: Cursor, step: Step)
    requires Sound(t) && step.Turn? && ValidStep(env, t, step) && !Meets(step.view, step.start, step.end)
    ensures Apply(t, step).hadEmpty
  {
    assert GoodRead(step.view, step.start, step.end);
  }

  lemma NextMeets(env: Env, t: Cursor, step: Step)
    requires Sound(t) && t.hadEmpty && ValidStep(env, t, step) && (step.Turn? || step.GiveUp? || step.Crash?)
    ensures Meets(step.view, step.start, step.end)
  {
    RangeAdvances(env, t, step.view, step.start, step.end);
  }

  /** Each completed iteration raises LastWrite, so a call has ended once it has gone on, after
      MaxTime stopped rising, for as many iterations as there are milliseconds left. */
  lemma {:induction false} TurnsAreBounded(env: Env, s: Cursor, steps: seq<Step>, calm: nat, top: int, i: nat)
    requires Sound(s) && ValidRun(env, s, steps) && calm <= i <= |steps|
    requires forall k :: 0 <= k < |steps| ==> steps[k].Turn?
    requires forall k :: calm <= k < |steps| ==> steps[k].view.maxTime <= top
    ensures s.last + (i - calm) <= After(s, steps, i).last
    ensures i > calm ==> After(s, steps, i).last <= top
  {
    hide ValidStep, Apply;
    if i == calm {
      LastWriteGrows(env, s, steps, 0, i);
    } else {
      TurnsAreBounded(env, s, steps, calm, top, i - 1);
      StepOfRun(env, s, steps, i - 1);
    }
  }

  // ---------- A negative sample count ----------

  ghost predicate NegativeCounts(steps: seq<Step>)
  {
    forall k :: 0 <= k < |steps| && (steps[k].Turn? || steps[k].GiveUp?) ==> steps[k].n < 0
  }

  lemma NegativeCountSettlesNothing(groups: seq<seq<Attempt>>, series: seq<Series>, n: int, done: bool)
    requires n < 0 && Delivers(groups, series, n, done)
    ensures SettledSamples(Concat(groups)) == []
  {
    RequestsFlatten(series, 1);
    DeliverySettles(groups, Due(series, n), done);
    assert |Due(series, n)| <= 1;
  }

  lemma NegativeStep(env: Env, t: Cursor, step: Step)
    requires Sound(t) && ValidStep(env, t, step) && (step.Turn? || step.GiveUp? ==> step.n < 0)
    ensures SettledSamples(Apply(t, step).log) == SettledSamples(t.log)
    ensures step.Turn? ==> Window(step.view, t.last, step.end) == MissedBy(step)
  {
    hide SettledSamples, Concat, Settled, Requests, Due, Flatten;
    if step.Turn? || step.GiveUp? {
      var raw := step.view.select(step.start, step.end);
      NegativeCountSettlesNothing(step.groups, TagSeries(raw, env.device), step.n, step.Turn?);
      SettledAppend(t.log, Concat(step.groups));
      if step.Turn? {
        TurnSettles(env, t, step);
        assert |TagSamples(Flatten(raw), env.device)| == 0;
        NothingSkipped(env, t, step.view, step.start, step.end);
      }
    }
  }

  /** With a negative sample count no sample is ever delivered, and the cursor passes none that a
      read returned: the writer crashes at the first one, again after each restart. */
  lemma {:induction false} NegativeCountDeliversNothing(env: Env, s: Cursor, steps: seq<Step>, i: nat)
    requires Sound(s) && ValidRun(env, s, steps) && NegativeCounts(steps) && i <= |steps|
    ensures SettledSamples(After(s, steps, i).log) == SettledSamples(s.log)
    ensures i < |steps| && steps[i].Turn? ==>
              Window(steps[i].view, After(s, steps, i).last, steps[i].end) == MissedBy(steps[i])
  {
    hide SettledSamples, ValidStep, MissedBy, Apply;
    if i > 0 {
      NegativeCountDeliversNothing(env, s, steps, i - 1);
      StepOfRun(env, s, steps, i - 1);
      NegativeStep(env, After(s, steps, i - 1), steps[i - 1]);
    }
    if i < |steps| {
      StepOfRun(env, s, steps, i);
      NegativeStep(env, After(s, steps, i), steps[i]);
    }
  }

  // ---------- Exactly once, while nothing fails and the store stands still ----------

  ghost predicate FrozenRun(env: Env, s: Cursor, steps: seq<Step>, v: View)
  {
    && ValidRun(env, s, steps)
    && forall i :: 0 <= i < |steps| ==> steps[i].Turn? && steps[i].view == v
  }

  /** The samples read by the first i steps, in order. */
  ghost function Read(v: View, steps: seq<Step>, i: nat): seq<Sample>
    requires i <= |steps| && forall k :: 0 <= k < |steps| ==> steps[k].Turn?
  {
    if i == 0 then []
    else Read(v, steps, i - 1) + Flatten(v.select(steps[i - 1].start, steps[i - 1].end))
  }

  /** The queried ranges are ordered and disjoint. */
  lemma RangesOrdered(env: Env, s: Cursor, steps: seq<Step>, i: nat, j: nat)
    requires Sound(s) && ValidRun(env, s, steps) && i < j < |steps|
    requires forall k :: i <= k <= j ==> steps[k].Turn?
    ensures steps[i].start <= steps[i].end < steps[j].start <= steps[j].end
  {
    hide ValidStep, Apply;
    LastWriteGrows(env, s, steps, i + 1, j);
    StepOfRun(env, s, steps, i);
    StepOfRun(env, s, steps, j);
  }

  /** Over a frozen store the ranges read so far hold exactly the samples the cursor passed, each
      once, other than those missed by reads that were cut short. */
  lemma {:induction false} ReadsExactlyOnce(env: Env, s: Cursor, steps: seq<Step>, v: View, i: nat)
    requires Sound(s) && FrozenRun(env, s, steps, v) && i <= |steps|
    ensures Missed(steps, i) <= Window(v, s.last, After(s, steps, i).last)
    ensures HoldsExactly(Read(v, steps, i), Window(v, s.last, After(s, steps, i).last) - Missed(steps, i))
  {
    hide ValidStep, Apply, Window, Flatten, HoldsExactly, MissedBy;
    if i == 0 {
      NothingRead(v, s.last);
    } else {
      ReadsExactlyOnce(env, s, steps, v, i - 1);
      StepOfRun(env, s, steps, i - 1);
      LastWriteGrows(env, s, steps, 0, i - 1);
      ReadOnce(env, After(s, steps, i - 1), steps[i - 1], s.last, Read(v, steps, i - 1), Missed(steps, i - 1));
    }
  }

  /** What the receiver settles is what the ranges held, in order, with the device label. */
  lemma {:induction false} SettlesWhatWasRead(env: Env, s: Cursor, steps: seq<Step>, v: View, i: nat)
    requires Sound(s) && FrozenRun(env, s, steps, v) && i <= |steps|
    ensures SettledSamples(After(s, steps, i).log) ==
            SettledSamples(s.log) + TagSamples(Read(v, steps, i), env.device)
  {
    hide ValidStep, Apply, TagSamples, SettledSamples, Concat, Flatten;
    if i == 0 {
      TagNothing(env.device, SettledSamples(s.log));
    } else {
      SettlesWhatWasRead(env, s, steps, v, i - 1);
      StepOfRun(env, s, steps, i - 1);
      SettleOnce(env, After(s, steps, i - 1), steps[i - 1], SettledSamples(s.log), Read(v, steps, i - 1));
    }
  }

  /** A settled sample is a sample of the store with the device in the label "edgedeviceid", and
      nothing else changed. */
  lemma SettledCarryDevice(env: Env, s: Cursor, steps: seq<Step>, v: View, k: nat)
    requires Sound(s) && FrozenRun(env, s, steps, v) && k < |Read(v, steps, |steps|)|
    ensures var settled := SettledSamples(After(s, steps, |steps|).log);
            && |SettledSamples(s.log)| + k < |settled|
            && var x, y := Read(v, steps, |steps|)[k], settled[|SettledSamples(s.log)| + k];
               && y.point == x.point
               && "edgedeviceid" in y.labels && y.labels["edgedeviceid"] == env.device
               && forall name :: name != "edgedeviceid" ==>
                    (name in y.labels <==> name in x.labels) && (name in x.labels ==> y.labels[name] == x.labels[name])
  {
    hide ValidStep, Apply, SettledSamples, Read, After, FrozenRun;
    SettlesWhatWasRead(env, s, steps, v, |steps|);
  }

  lemma NothingRead(v: View, t: int)
    ensures HoldsExactly([], Window(v, t, t) - {})
  {
    assert Window(v, t, t) == {};
  }

  lemma ReadOnce(env: Env, t: Cursor, step: Step, from: int, before: seq<Sample>, missed: set<Sample>)
    requires Sound(t) && step.Turn? && ValidStep(env, t, step) && from <= t.last
    requires missed <= Window(step.view, from, t.last)
    requires HoldsExactly(before, Window(step.view, from, t.last) - missed)
    ensures missed + MissedBy(step) <= Window(step.view, from, step.end)
    ensures HoldsExactly(before + Flatten(step.view.select(step.start, step.end)),
                         Window(step.view, from, step.end) - (missed + MissedBy(step)))
  {
    hide *;
    var v := step.view;
    var passed, range := Window(v, from, t.last), Window(v, t.last, step.end);
    TurnHolds(env, t, step);
    WindowsJoin(v, from, t.last, step.end);
    assert passed + range - (missed + MissedBy(step)) == (passed - missed) + (range - MissedBy(step));
    DisjointSum(passed - missed, range - MissedBy(step));
    HoldsBoth(before, Flatten(v.select(step.start, step.end)), passed - missed, range - MissedBy(step));
  }

  lemma TurnHolds(env: Env, t: Cursor, step: Step)
    requires Sound(t) && step.Turn? && ValidStep(env, t, step)
    ensures t.last < step.end && MissedBy(step) <= Window(step.view, t.last, step.end)
    ensures HoldsExactly(Flatten(step.view.select(step.start, step.end)),
                         Window(step.view, t.last, step.end) - MissedBy(step))
  {
    RangeAdvances(env, t, step.view, step.start, step.end);
    NothingSkipped(env, t, step.view, step.start, step.end);
    assert GoodRead(step.view, step.start, step.end);
  }

  lemma HoldsBoth(x: seq<Sample>, y: seq<Sample>, a: set<Sample>, b: set<Sample>)
    requires HoldsExactly(x, a) && HoldsExactly(y, b) && multiset(a + b) == multiset(a) + multiset(b)
    ensures HoldsExactly(x + y, a + b)
  {
  }

  lemma DisjointSum(a: set<Sample>, b: set<Sample>)
    requires a !! b
    ensures multiset(a + b) == multiset(a) + multiset(b)
  {
  }

  lemma WindowsJoin(v: View, a: int, b: int, c: int)
    requires a <= b <= c
    ensures Window(v, a, c) == Window(v, a, b) + Window(v, b, c) && Window(v, a, b) !! Window(v, b, c)
  {
  }

  /** The list has every sample of the set exactly once, and no other. */
  ghost predicate HoldsExactly(samples: seq<Sample>, expected: set<Sample>)
  {
    multiset(samples) == multiset(expected)
  }

  lemma SettleOnce(env: Env, t: Cursor, step: Step, first: seq<Sample>, before: seq<Sample>)
    requires step.Turn? && ValidStep(env, t, step)
    requires SettledSamples(t.log) == first + TagSamples(before, env.device)
    ensures SettledSamples(t.log + Concat(step.groups)) ==
            first + TagSamples(before + Flatten(step.view.select(step.start, step.end)), env.device)
  {
    var next := Flatten(step.view.select(step.start, step.end));
    calc {
      SettledSamples(t.log + Concat(step.groups));
      { SettledAppend(t.log, Concat(step.groups)); TurnSettles(env, t, step); }
      (first + TagSamples(before, env.device)) + TagSamples(next, env.device);
      { Regroup(first, TagSamples(before, env.device), TagSamples(next, env.device)); }
      first + (TagSamples(before, env.device) + TagSamples(next, env.device));
      { TagAppend(before, next, env.device); }
      first + TagSamples(before + next, env.device);
    }
  }

  lemma TagNothing(device: string, before: seq<Sample>)
    ensures before + TagSamples([], device) == before
  {
  }

  lemma TagAppend(x: seq<Sample>, y: seq<Sample>, device: string)
    ensures TagSamples(x, device) + TagSamples(y, device) == TagSamples(x + y, device)
  {
  }

  /** Every sample the cursor passes over a frozen store lies in exactly one queried range. */
  lemma {:induction false} InExactlyOneRange(env: Env, s: Cursor, steps: seq<Step>, v: View, x: Sample)
    requires Sound(s) && FrozenRun(env, s, steps, v)
    requires x in Window(v, s.last, After(s, steps, |steps|).last)
    ensures exists i :: 0 <= i < |steps| && steps[i].start <= x.point.time <= steps[i].end &&
              forall j :: 0 <= j < |steps| && steps[j].start <= x.point.time <= steps[j].end ==> i == j
  {
    var i := FindRange(env, s, steps, v, x, |steps|);
    forall j | 0 <= j < |steps| && steps[j].start <= x.point.time <= steps[j].end
      ensures i == j
    {
      if i < j {
        RangesOrdered(env, s, steps, i, j);
      } else if j < i {
        RangesOrdered(env, s, steps, j, i);
      }
    }
  }

  lemma InsideRange(env: Env, t: Cursor, step: Step, x: Sample)
    requires Sound(t) && step.Turn? && ValidStep(env, t, step)
    requires x in Window(step.view, t.last, step.end)
    ensures step.start <= x.point.time <= step.end
  {
    NothingSkipped(env, t, step.view, step.start, step.end);
  }

  lemma {:induction false} FindRange(env: Env, s: Cursor, steps: seq<Step>, v: View, x: Sample, n: nat)
    returns (i: nat)
    requires Sound(s) && FrozenRun(env, s, steps, v) && n <= |steps|
    requires x in Window(v, s.last, After(s, steps, n).last)
    ensures i < n && steps[i].start <= x.point.time <= steps[i].end
  {
    hide ValidStep, Apply;
    var t := After(s, steps, n - 1);
    if t.last < x.point.time {
      i := n - 1;
      StepOfRun(env, s, steps, i);
      InsideRange(env, t, steps[i], x);
    } else {
      i := FindRange(env, s, steps, v, x, n - 1);
    }
  }
}
