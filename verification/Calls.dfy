/** One call of the paging loop as a run of the paging system. */
module Calls {
  import opened TimeSeries
  import opened Delivery
  import opened Paging

  /** The store as last seen before iteration k, and the highest MaxTime seen by then. */
  ghost function ViewBefore(s: Cursor, views: nat -> View, k: nat): View
  {
    if k == 0 then s.view else views(k - 1)
  }

  ghost function SeenBefore(s: Cursor, views: nat -> View, k: nat): int
  {
    if k == 0 then s.seen else Max(SeenBefore(s, views, k - 1), views(k - 1).maxTime)
  }

  ghost predicate Observed(s: Cursor, views: nat -> View)
  {
    forall k: nat :: WellFormed(views(k)) && Grows(ViewBefore(s, views, k), SeenBefore(s, views, k), views(k))
  }

  /** What a call is given: the store as each iteration sees it, the fate of each cursor write,
      and the number of samples for a request. */
  datatype Given = Given(views: nat -> View, saves: nat -> SaveOutcome, n: int)

  /** The completed iterations of a call. */
  ghost predicate Turns(steps: seq<Step>, g: Given)
  {
    forall i :: 0 <= i < |steps| ==>
      steps[i].Turn? && steps[i].view == g.views(i) && steps[i].save == g.saves(i) && steps[i].n == g.n
  }

  /** A call is a number of completed iterations and one that ends it. */
  ghost predicate IsCall(steps: seq<Step>, g: Given)
  {
    && |steps| > 0 && Turns(steps[..|steps| - 1], g)
    && var last := steps[|steps| - 1];
       && (last.Stall? || ((last.GiveUp? || last.Crash?) && last.n == g.n))
       && last.view == g.views(|steps| - 1)
  }

  lemma Extend(env: Env, s: Cursor, steps: seq<Step>, step: Step)
    requires Sound(s) && ValidRun(env, s, steps) && ValidStep(env, After(s, steps, |steps|), step)
    ensures ValidRun(env, s, steps + [step])
    ensures After(s, steps + [step], |steps| + 1) == Apply(After(s, steps, |steps|), step)
    ensures Sound(Apply(After(s, steps, |steps|), step))
  {
    hide ValidStep, Apply, Sound;
    RunSnoc(env, s, steps, step);
    AtLeastOnce(env, s, steps + [step], |steps| + 1);
  }

  /** The cursor remembers the store as it was before iteration k. */
  ghost predicate Watches(s: Cursor, views: nat -> View, k: nat, t: Cursor)
  {
    t.view == ViewBefore(s, views, k) && t.seen == SeenBefore(s, views, k)
  }

  ghost method Stalled(env: Env, s: Cursor, steps: seq<Step>, t: Cursor, view: View, g: Given)
    returns (more: seq<Step>, next: Cursor)
    requires Sound(s) && ValidRun(env, s, steps) && t == After(s, steps, |steps|)
    requires Turns(steps, g) && view == g.views(|steps|)
    requires Observes(t, view) && (view.maxTime <= t.last || !view.minOk || !view.selectOk)
    ensures ValidRun(env, s, more) && next == After(s, more, |more|) && Sound(next) && IsCall(more, g)
    ensures next.last == t.last && next.saved == t.saved && next.log == t.log && !next.hadEmpty
  {
    hide Observes, ValidRun, Sound, After;
    Extend(env, s, steps, Stall(view));
    more, next := steps + [Stall(view)], Apply(t, Stall(view));
    assert more[..|steps|] == steps;
  }

  ghost method GaveUp(env: Env, s: Cursor, steps: seq<Step>, t: Cursor, step: Step, g: Given)
    returns (more: seq<Step>, next: Cursor)
    requires Sound(s) && ValidRun(env, s, steps) && t == After(s, steps, |steps|)
    requires step.GiveUp? && Turns(steps, g) && step.view == g.views(|steps|) && step.n == g.n
    requires Observes(t, step.view) && step.n != 0 && ValidRange(env, t, step.view, step.start, step.end)
    requires Delivers(step.groups, RangeSeries(env, step.view, step.start, step.end), step.n, false)
    ensures ValidRun(env, s, more) && next == After(s, more, |more|) && Sound(next) && IsCall(more, g)
    ensures next.last == t.last && next.saved == t.saved && next.log == t.log + Concat(step.groups) && !next.hadEmpty
  {
    hide Observes, ValidRange, Delivers, ValidRun, Sound, After, RangeSeries;
    Extend(env, s, steps, step);
    more, next := steps + [step], Apply(t, step);
    assert more[..|steps|] == steps;
  }

  ghost method Crashed(env: Env, s: Cursor, steps: seq<Step>, t: Cursor, step: Step, g: Given)
    returns (more: seq<Step>, next: Cursor)
    requires Sound(s) && ValidRun(env, s, steps) && t == After(s, steps, |steps|)
    requires step.Crash? && Turns(steps, g) && step.view == g.views(|steps|) && step.n == g.n
    requires Observes(t, step.view) && step.n != 0 && ValidRange(env, t, step.view, step.start, step.end)
    requires !Sendable(RangeSeries(env, step.view, step.start, step.end), step.n)
    ensures ValidRun(env, s, more) && next == After(s, more, |more|) && Sound(next) && IsCall(more, g)
    ensures next.last == t.last && next.saved == t.saved && next.log == t.log && !next.hadEmpty
  {
    hide Observes, ValidRange, Sendable, ValidRun, Sound, After, RangeSeries;
    Extend(env, s, steps, step);
    more, next := steps + [step], Apply(t, step);
    assert more[..|steps|] == steps;
  }

  ghost method Turned(env: Env, s: Cursor, steps: seq<Step>, t: Cursor, step: Step, g: Given)
    returns (more: seq<Step>, next: Cursor)
    requires Sound(s) && ValidRun(env, s, steps) && t == After(s, steps, |steps|)
    requires step.Turn? && Turns(steps, g)
    requires step.view == g.views(|steps|) && step.save == g.saves(|steps|) && step.n == g.n
    requires Watches(s, g.views, |steps|, t)
    requires Observes(t, step.view) && step.n != 0 && ValidRange(env, t, step.view, step.start, step.end)
    requires Delivers(step.groups, RangeSeries(env, step.view, step.start, step.end), step.n, true)
    ensures more == steps + [step] && Turns(more, g)
    ensures ValidRun(env, s, more) && next == After(s, more, |more|) && Sound(next)
    ensures next == Apply(t, step) && Watches(s, g.views, |more|, next)
  {
    hide Observes, ValidRange, Delivers, ValidRun, Sound, After, RangeSeries;
    Extend(env, s, steps, step);
    more, next := steps + [step], Apply(t, step);
  }

  lemma EmptyRun(env: Env, s: Cursor, g: Given)
    ensures ValidRun(env, s, []) && Turns([], g) && Concat([]) == [] && Watches(s, g.views, 0, s)
  {
  }

  lemma NothingToSend(env: Env, view: View, start: int, end: int, n: int)
    requires n != 0 && RangeSeries(env, view, start, end) == []
    ensures Delivers([], RangeSeries(env, view, start, end), n, true)
  {
  }

  lemma RangeSent(groups: seq<seq<Attempt>>, series: seq<Series>, n: int, done: bool)
    requires Sendable(series, n) && IsDelivery(groups, Due(series, n), done)
    ensures Delivers(groups, series, n, done)
  {
  }

  lemma ObservesNext(s: Cursor, views: nat -> View, k: nat, t: Cursor)
    requires Observed(s, views) && Watches(s, views, k, t)
    ensures WellFormed(views(k)) && Observes(t, views(k))
  {
    hide WellFormed, Grows;
  }

  /** A call ends: once MaxTime has stopped rising, from some iteration, calm, on, it goes on for no
      more iterations than there are milliseconds left. */
  lemma CallsEnd(env: Env, s: Cursor, steps: seq<Step>, g: Given, calm: nat)
    requires Sound(s) && ValidRun(env, s, steps) && Turns(steps, g)
    requires forall k :: k >= calm ==> g.views(k).maxTime <= g.views(calm).maxTime
    ensures |steps| <= calm + Max(0, g.views(calm).maxTime - s.last)
  {
    if |steps| > calm {
      TurnsAreBounded(env, s, steps, calm, g.views(calm).maxTime, |steps|);
    }
  }

  /** A call over a frozen, readable store that ends without a failure has read every sample above
      the old LastWrite exactly once, other than those missed by reads that were cut short, and
      the receiver has settled what was read, with the device label, in order. */
  lemma FrozenCallDeliversAll(env: Env, s: Cursor, steps: seq<Step>, g: Given, v: View)
    requires Sound(s) && ValidRun(env, s, steps) && IsCall(steps, g) && forall k :: g.views(k) == v
    requires steps[|steps| - 1].Stall? && v.minOk && v.selectOk
    ensures var turns := steps[..|steps| - 1];
            && FrozenRun(env, s, turns, v)
            && HoldsExactly(Read(v, turns, |turns|), Window(v, s.last, v.maxTime) - Missed(turns, |turns|))
            && (Missed(turns, |turns|) == {} <==>
                forall k :: 0 <= k < |turns| ==> CompleteRead(v, turns[k].start, turns[k].end))
            && After(s, steps, |steps|).last == Max(s.last, v.maxTime)
            && SettledSamples(After(s, steps, |steps|).log) ==
               SettledSamples(s.log) + TagSamples(Read(v, turns, |turns|), env.device)
  {
    hide ValidStep, Apply, SettledSamples, TagSamples, Window, HoldsExactly, WellFormed, Read, Missed, CompleteRead;
    var n := |steps| - 1;
    RunPrefix(env, s, steps, n);
    StallEndsCall(env, s, steps, v);
    LastOfCall(env, s, steps[..n], v);
    ReadsExactlyOnce(env, s, steps[..n], v, n);
    SettlesWhatWasRead(env, s, steps[..n], v, n);
    MissedNothing(env, s, steps[..n], n);
    WindowOfCall(v, s.last, After(s, steps, n).last);
  }

  lemma RunPrefix(env: Env, s: Cursor, steps: seq<Step>, n: nat)
    requires ValidRun(env, s, steps) && n <= |steps|
    ensures ValidRun(env, s, steps[..n])
    ensures After(s, steps[..n], n) == After(s, steps, n)
  {
    assert steps == steps[..n] + steps[n..];
    ValidAt(env, s, steps, |steps|, n);
    ValidPrefix(env, s, steps[..n], steps[n..], n);
    AfterPrefix(s, steps[..n], steps[n..], n);
  }

  lemma StallEndsCall(env: Env, s: Cursor, steps: seq<Step>, v: View)
    requires ValidRun(env, s, steps) && |steps| > 0 && steps[|steps| - 1] == Stall(v) && v.minOk && v.selectOk
    ensures v.maxTime <= After(s, steps, |steps| - 1).last == After(s, steps, |steps|).last
    ensures After(s, steps, |steps|).log == After(s, steps, |steps| - 1).log
  {
    ValidAt(env, s, steps, |steps|, |steps| - 1);
  }

  lemma LastOfCall(env: Env, s: Cursor, turns: seq<Step>, v: View)
    requires Sound(s) && FrozenRun(env, s, turns, v) && v.maxTime <= After(s, turns, |turns|).last
    ensures After(s, turns, |turns|).last == Max(s.last, v.maxTime)
  {
    hide ValidStep, Apply;
    if |turns| > 0 {
      StepOfRun(env, s, turns, |turns| - 1);
      LastWriteGrows(env, s, turns, 0, |turns|);
    }
  }

  lemma WindowOfCall(v: View, a: int, b: int)
    requires b == Max(a, v.maxTime)
    ensures Window(v, a, b) == Window(v, a, v.maxTime)
  {
  }
}
