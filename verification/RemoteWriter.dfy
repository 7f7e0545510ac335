/** The remote writer itself: batching and sending of one range, paging through the store, and
    the configuration steps of its life. */
module RemoteWriter {
  import opened Options
  import opened TimeSeries
  import opened Delivery
  import opened Batching
  import opened Paging
  import opened Calls
  import Lifecycle

  /** The closest instant from timeVal on that lies in a block or in the head. */
  method SkipEmptyRanges(v: View, timeVal: int) returns (result: int)
    ensures BlocksInOrder(v) && v.headMin <= v.maxTime && ZERO < timeVal <= v.maxTime ==>
              LeastCovered(v, timeVal, result)
  {
    result := ZERO;
    var i := 0;
    while i < |v.blocks|
      invariant 0 <= i <= |v.blocks| && result == ZERO
      invariant forall j :: 0 <= j < i ==> v.blocks[j].maxTime < timeVal
    {
      var block := v.blocks[i];
      if timeVal > block.maxTime {
        i := i + 1;
        continue;
      }
      if timeVal < block.minTime {
        result := block.minTime;
      } else {
        result := timeVal;
      }
      assert block in v.blocks;
      break;
    }
    if result == ZERO {
      result := v.headMin;
      if timeVal > result {
        result := timeVal;
      }
    }
  }

  /** A series whose points are in a slice of their own. */
  datatype Backed = Backed(labels: Labels, points: array<DataPoint>)

  ghost function Slices(stored: seq<Backed>): set<array<DataPoint>>
  {
    set k | 0 <= k < |stored| :: stored[k].points
  }

  /** The slices hold these series. */
  ghost predicate Hold(stored: seq<Backed>, series: seq<Series>)
    reads Slices(stored)
  {
    && |stored| == |series|
    && forall k :: 0 <= k < |series| ==>
         stored[k].labels == series[k].labels && stored[k].points[..] == series[k].points
  }

  /** Reads series into slices of their own. */
  method Store(series: seq<Series>) returns (stored: seq<Backed>)
    ensures Hold(stored, series)
  {
    stored := [];
    for i := 0 to |series|
      invariant Hold(stored, series[..i])
    {
      var points := series[i].points;
      var slice := new DataPoint[|points|](j requires 0 <= j < |points| => points[j]);
      stored := stored + [Backed(series[i].labels, slice)];
    }
    assert series[..|series|] == series;
  }

  /** The request that the slices make up. */
  method Encode(stored: seq<Backed>, ghost request: Request) returns (encoded: Request)
    requires Hold(stored, request)
    ensures encoded == request
  {
    encoded := [];
    for i := 0 to |stored|
      invariant |encoded| == i && encoded == request[..i]
    {
      encoded := encoded + [Series(stored[i].labels, stored[i].points[..])];
    }
  }

  /** Appending to a slice that is still nil copies the samples into a new one. */
  method AppendToNil(target: array<DataPoint>, source: array<DataPoint>, lo: nat, hi: nat)
    returns (grown: array<DataPoint>)
    requires target.Length == 0 && lo <= hi <= source.Length
    ensures fresh(grown) && grown[..] == source[lo..hi]
  {
    grown := new DataPoint[hi - lo];
    for j := 0 to hi - lo
      invariant grown[..j] == source[lo..lo + j]
    {
      grown[j] := source[lo + j];
    }
  }

  /** What an iteration does to the request under construction: the samples go into a new slice of the
      series it has just begun. */
  method Grown(building: seq<Backed>, ghost request: Request, current: Backed, k: nat, m: nat,
               ghost stored: seq<Backed>, ghost series: seq<Series>)
    returns (more: seq<Backed>)
    requires Hold(stored, series)
    requires Hold(building, request) && k + m <= current.points.Length && (k == 0 || building == [])
    ensures Hold(stored, series)
    ensures Hold(more, Grow(request, Series(current.labels, current.points[..]), k, m))
  {
    more := building;
    if k == 0 || more == [] {
      var empty := new DataPoint[0];
      more := more + [Backed(current.labels, empty)];
    }
    var last := |more| - 1;
    var grown := AppendToNil(more[last].points, current.points, k, k + m);
    more := more[last := more[last].(points := grown)];
    assert [] + current.points[..][k..k + m] == grown[..];
  }

  lemma HoldNothing()
    ensures Hold([], [])
  {
  }

  lemma HoldAt(stored: seq<Backed>, series: seq<Series>, i: nat)
    requires Hold(stored, series)
    ensures |stored| == |series|
    ensures i < |series| ==>
              && series[i] == Series(stored[i].labels, stored[i].points[..])
              && |series[i].points| == stored[i].points.Length
  {
  }

  /** How the batching of one range ends. */
  datatype RangeOutcome = Completed | Abandoned | Panicked

  class RemoteWrite {
    const deviceID: string
    const rangeDuration: nat
    var lastWrite: int
    var lastWriteFile: Saved
    var config: Option<Receiver>
    var client: WriteClient?
    var isRunning: bool
    var writers: seq<Lifecycle.Writer>

    constructor (deviceID: string, rangeDuration: nat, lastWriteFile: Saved)
      ensures this.deviceID == deviceID && this.rangeDuration == rangeDuration
      ensures this.lastWriteFile == lastWriteFile && lastWrite == Load(lastWriteFile)
      ensures lastWriteFile.At? ==> lastWrite == lastWriteFile.time
      ensures lastWriteFile.Nothing? ==> lastWrite == ZERO
      ensures Control() == Lifecycle.INITIAL
    {
      this.deviceID := deviceID;
      this.rangeDuration := rangeDuration;
      this.lastWriteFile := lastWriteFile;
      lastWrite := match lastWriteFile case Nothing => ZERO case At(time) => time;
      config, client, isRunning, writers := None, null, false, [];
    }

    // ---------- Sending ----------

    /** Sends one request, again after a recoverable error, at most three times; one that cannot
        be encoded is given up without an attempt. */
    method WriteRequest(request: Request, client: WriteClient, encodes: bool) returns (ok: bool)
      modifies client
      ensures |old(client.log)| <= |client.log| && old(client.log) == client.log[..|old(client.log)|]
      ensures IsTry(client.log[|old(client.log)|..], request, ok)
      ensures encodes <==> client.log != old(client.log)
    {
      if !encodes {
        return false;
      }
      ghost var before := client.log;
      ghost var tries: seq<Attempt> := [];
      var try := 1;
      while try <= NUM_TRIES
        invariant client.log == before + tries
        invariant 1 <= try <= NUM_TRIES + 1
        invariant try <= NUM_TRIES ==>
                    |tries| == try - 1 &&
                    forall k :: 0 <= k < |tries| ==> tries[k] == Attempt(request, Recoverable)
        invariant try > NUM_TRIES ==> tries != [] && IsTry(tries, request, true)
      {
        var outcome := client.Write(request);
        tries := tries + [Attempt(request, outcome)];
        if outcome == Accepted {
          break;
        }
        if outcome == Recoverable {
          if try == NUM_TRIES {
            return false;
          }
        } else {
          try := NUM_TRIES;
        }
        try := try + 1;
      }
      return true;
    }

    /** Sends the request that some slices make up; no slice changes by that. */
    method WriteSlices(building: seq<Backed>, ghost request: Request, client: WriteClient, encodes: bool,
                       ghost stored: seq<Backed>, ghost series: seq<Series>)
      returns (ok: bool)
      requires Hold(building, request) && Hold(stored, series)
      modifies client
      ensures Hold(stored, series)
      ensures |old(client.log)| <= |client.log| && old(client.log) == client.log[..|old(client.log)|]
      ensures IsTry(client.log[|old(client.log)|..], request, ok)
    {
      hide IsTry;
      var encoded := Encode(building, request);
      ok := WriteRequest(encoded, client, encodes);
    }

    /** Repacks the series into requests of requestNumSamples samples and sends them in order,
        stopping at the first request that is given up. A negative count slices the first series
        with samples out of range. The slices of the series stay as they are: those of the requests
        are copies. */
    method WriteRange(stored: seq<Backed>, ghost series: seq<Series>, client: WriteClient, requestNumSamples: int)
      returns (outcome: RangeOutcome, ghost groups: seq<seq<Attempt>>)
      requires requestNumSamples != 0 && Hold(stored, series)
      modifies client
      ensures Hold(stored, series)
      ensures client.log == old(client.log) + Concat(groups)
      ensures outcome == Panicked <==> !Sendable(series, requestNumSamples)
      ensures outcome == Panicked ==> groups == []
      ensures outcome != Panicked ==> IsDelivery(groups, Due(series, requestNumSamples), outcome == Completed)
    {
      hide *;
      ghost var n := Effective(requestNumSamples);
      EffectiveCount(requestNumSamples);
      var requestSeries: seq<Backed> := [];
      var sampleIndex: nat := 0;
      var numSamples: nat := 0;
      ghost var start: nat, sent: seq<Request>, request: Request := 0, [], [];
      groups := [];
      StartOfRange(series, n);
      PassesEmpty(series, requestNumSamples, 0);
      NothingDelivered(client.log);
      HoldNothing();
      HoldAt(stored, series, 0);

      var i := 0;
      while i < |stored|
        invariant i <= |stored| == |series| && numSamples < n && PassedNothing(series, requestNumSamples, i)
        invariant Hold(stored, series) && Hold(requestSeries, request)
        invariant client.log == old(client.log) + Concat(groups) && IsDelivery(groups, sent, true)
        invariant i < |series| ==> InBatch(series, n, i, sampleIndex, start, numSamples, request, sent)
        invariant i < |series| && requestNumSamples < 0 ==> groups == [] && sampleIndex == numSamples == 0
        invariant sampleIndex == 0 || requestSeries == []
        invariant i == |series| ==> sent == Requests(series, n)
        decreases |series| - i, if i < |series| then |series[i].points| - sampleIndex else 0
      {
        var currentSeries := stored[i];
        var lenCurrentSeries := currentSeries.points.Length;
        ghost var c, k, at, before := i, sampleIndex, numSamples, request;
        ghost var m: nat := 0;
        HoldAt(stored, series, i);
        PositionInSeries(series, n, i, sampleIndex, start, numSamples, request, sent);
        PassesEmpty(series, requestNumSamples, i);

        if lenCurrentSeries != 0 {
          var numMissingSamples := requestNumSamples - numSamples;
          var remainderOfSeries := lenCurrentSeries - sampleIndex;
          var numSamplesToUse := numMissingSamples;
          if numMissingSamples > remainderOfSeries {
            numSamplesToUse := remainderOfSeries;
          }
          if numSamplesToUse < 0 {
            SliceOutOfRange(series, requestNumSamples, i);
            return Panicked, groups;
          }
          m := numSamplesToUse;
          requestSeries := Grown(requestSeries, request, currentSeries, sampleIndex, numSamplesToUse, stored, series);
          request := Grow(request, series[i], sampleIndex, numSamplesToUse);
          numSamples := numSamples + numSamplesToUse;
          sampleIndex := sampleIndex + numSamplesToUse;
        }
        TakenByLoop(before, series[c], n, k, at, m);

        if sampleIndex == lenCurrentSeries {
          i := i + 1;
          sampleIndex := 0;
        }

        if numSamples != requestNumSamples && i < |stored| {
          GoesOn(series, n, c, k, start, at, m, before, sent);
          continue;
        }

        var encodes: bool := *;
        label Send:
        var written := WriteSlices(requestSeries, request, client, encodes, stored, series);
        ghost var group := client.log[|old@Send(client.log)|..];
        DeliverySnoc(groups, sent, group, request, written);
        groups := groups + [group];
        if !written {
          ghost var rest := NextIsDue(series, n, c, k, start, at, m, before, sent);
          DeliveryStops(groups, sent + [request], rest);
          RangeSendable(series, requestNumSamples, i);
          return Abandoned, groups;
        }
        if i < |stored| {
          SendsFull(series, n, c, k, start, at, m, before, sent, i, sampleIndex);
        } else {
          SendsLast(series, n, c, k, start, at, m, before, sent);
        }

        sent := sent + [request];
        start := start + numSamples;
        numSamples := 0;
        requestSeries, request := [], [];
        HoldNothing();
      }
      RangeSendable(series, requestNumSamples, i);
      return Completed, groups;
    }

    // ---------- Paging ----------

    function PagingEnv(): Env
    {
      Env(deviceID, rangeDuration)
    }

    /** The fields and the receiver's log agree with a cursor of the paging system. */
    ghost predicate Shows(client: WriteClient, s: Cursor)
      reads this, client
    {
      s.last == lastWrite && s.saved == lastWriteFile && s.log == client.log
    }

    /** One call of the writer: pages through the store until it has caught up, the store cannot
        be read, a request is given up, or a negative count crashes it. views gives the store as
        each iteration sees it and saves the fate of each cursor write. The call is followed for
        at most horizon iterations. */
    method Write(client: WriteClient, requestNumSamples: int, views: nat -> View, saves: nat -> SaveOutcome,
                 horizon: nat, ghost s: Cursor)
      returns (ended: bool, ghost steps: seq<Step>)
      requires requestNumSamples != 0
      requires Shows(client, s) && Sound(s) && !s.hadEmpty
      requires Observed(s, views)
      modifies this`lastWrite, this`lastWriteFile, client
      ensures ValidRun(PagingEnv(), s, steps)
      ensures Shows(client, After(s, steps, |steps|)) && Sound(After(s, steps, |steps|))
      ensures ended ==> IsCall(steps, Given(views, saves, requestNumSamples)) && !After(s, steps, |steps|).hadEmpty
      ensures !ended ==> Turns(steps, Given(views, saves, requestNumSamples)) && |steps| == horizon
    {
      hide ValidRange, IsDelivery, Delivers, Due, Sendable, ValidRun, ValidStep, Sound, WellFormed, Grows, Observed,
        Concat, Turns, IsCall, TagSeries, Watches;
      var hadEmptyRange := false;
      var k: nat := 0;
      ghost var env, g, t := PagingEnv(), Given(views, saves, requestNumSamples), s;
      steps := [];
      EmptyRun(env, s, g);

      var maxTSDB := views(k).maxTime;
      while maxTSDB > lastWrite && k < horizon
        invariant |steps| == k <= horizon && maxTSDB == views(k).maxTime
        invariant ValidRun(env, s, steps) && t == After(s, steps, k) && Sound(t)
        invariant Shows(client, t) && t.hadEmpty == hadEmptyRange
        invariant Watches(s, views, k, t)
        invariant Turns(steps, g)
        decreases horizon - k
      {
        var view := views(k);
        ObservesNext(s, views, k, t);
        if !view.minOk {
          steps, t := Stalled(env, s, steps, t, view, g);
          return true, steps;
        }
        var rangeStart, rangeEnd := NextRange(view, hadEmptyRange, t);
        if !view.selectOk {
          steps, t := Stalled(env, s, steps, t, view, g);
          return true, steps;
        }
        var read := view.select(rangeStart, rangeEnd);
        var series := AddDeviceLabel(read);
        assert series == RangeSeries(env, view, rangeStart, rangeEnd);

        ghost var groups: seq<seq<Attempt>> := [];
        if |series| != 0 {
          hadEmptyRange := false;
          var outcome;
          var stored := Store(series);
          outcome, groups := WriteRange(stored, series, client, requestNumSamples);
          match outcome {
            case Panicked =>
              NothingDelivered(client.log);
              ghost var step := Crash(view, rangeStart, rangeEnd, requestNumSamples);
              steps, t := Crashed(env, s, steps, t, step, g);
              return true, steps;
            case Abandoned =>
              RangeSent(groups, series, requestNumSamples, false);
              ghost var step := GiveUp(view, rangeStart, rangeEnd, requestNumSamples, groups);
              steps, t := GaveUp(env, s, steps, t, step, g);
              return true, steps;
            case Completed =>
              RangeSent(groups, series, requestNumSamples, true);
          }
        } else {
          NothingToSend(env, view, rangeStart, rangeEnd, requestNumSamples);
          hadEmptyRange := true;
        }

        ghost var step := Turn(view, rangeStart, rangeEnd, requestNumSamples, groups, saves(k));
        steps, t := Turned(env, s, steps, t, step, g);
        lastWrite := rangeEnd;
        match saves(k) {
          case Stored => lastWriteFile := At(lastWrite);
          case Kept =>
          case Emptied => lastWriteFile := Nothing;
        }
        k := k + 1;
        maxTSDB := views(k).maxTime;
      }
      if maxTSDB > lastWrite {
        return false, steps;
      }
      ObservesNext(s, views, k, t);
      steps, t := Stalled(env, s, steps, t, views(k), g);
      return true, steps;
    }

    /** Labels every series with the device. */
    method AddDeviceLabel(read: seq<Series>) returns (series: seq<Series>)
      ensures series == TagSeries(read, deviceID)
    {
      series := read;
      for i := 0 to |series|
        invariant |series| == |read|
        invariant forall k :: 0 <= k < i ==> series[k] == TagSeries(read, deviceID)[k]
        invariant forall k :: i <= k < |series| ==> series[k] == read[k]
      {
        series := series[i := series[i].(labels := series[i].labels[DEVICE_LABEL := deviceID])];
      }
    }

    /** The closed range of the next iteration. */
    method NextRange(view: View, hadEmptyRange: bool, ghost t: Cursor) returns (rangeStart: int, rangeEnd: int)
      requires view.minOk && view.maxTime > lastWrite && WellFormed(view)
      requires Sound(t) && t.last == lastWrite && t.hadEmpty == hadEmptyRange
      ensures view.selectOk ==> ValidRange(PagingEnv(), t, view, rangeStart, rangeEnd)
      ensures lastWrite < rangeEnd
    {
      rangeStart := lastWrite + 1; // the store keeps whole milliseconds
      var minTSDB := view.minTime;
      if hadEmptyRange {
        rangeStart := SkipEmptyRanges(view, rangeStart);
      } else if rangeStart < minTSDB {
        rangeStart := minTSDB;
      }
      rangeEnd := rangeStart + rangeDuration;
      if rangeEnd > view.maxTime {
        rangeEnd := view.maxTime;
      }
    }

    // ---------- Life ----------

    function Control(): Lifecycle.State
      reads this
    {
      Lifecycle.State(config, if client == null then None else Some(client.config), isRunning, writers)
    }

    /** Applies a new receiver configuration; buildOk is the fate of parsing the URL and creating
        the CA file and the client. */
    method Update(newConfig: Option<Receiver>, buildOk: bool) returns (rejected: bool)
      modifies this`config, this`client, this`isRunning, this`writers
      ensures Control() == Lifecycle.Reconfigured(old(Control()), newConfig, buildOk)
      ensures rejected == Lifecycle.Rejected(old(Control()), newConfig, buildOk)
      ensures client == old(client) || client == null || (fresh(client) && client.log == [])
      ensures rejected ==> client == old(client)
    {
      if config == newConfig {
        return false;
      }
      var featureDisabled := newConfig.None? || newConfig.value.url == "";
      if featureDisabled {
        client := null;
      } else {
        var failed := ApplyConfig(newConfig.value, buildOk);
        if failed {
          return true;
        }
      }
      if !featureDisabled && !isRunning {
        writers := writers + [Lifecycle.AtTop];
        isRunning := true;
      }
      config := newConfig;
      return false;
    }

    method ApplyConfig(newConfig: Receiver, buildOk: bool) returns (failed: bool)
      modifies this`client
      ensures failed == !Lifecycle.Accepts(newConfig, buildOk)
      ensures failed ==> client == old(client)
      ensures !failed ==> client != null && fresh(client) && client.config == newConfig && client.log == []
    {
      if !buildOk || newConfig.timeoutSeconds == 0 || newConfig.requestNumSamples == 0 {
        return true;
      }
      client := new WriteClient(newConfig);
      return false;
    }

    /** A writer at the top of its loop reads the configuration, or leaves. */
    method GetConfig(i: nat) returns (held: WriteClient?, requestNumSamples: int)
      requires i < |writers| && writers[i].AtTop?
      requires client != null ==> config.Some?
      modifies this`isRunning, this`writers
      ensures Control() == Lifecycle.Polled(old(Control()), i)
      ensures held == client
      ensures held != null ==> requestNumSamples == config.value.requestNumSamples
      ensures held != null && Lifecycle.Inv(old(Control())) ==> requestNumSamples != 0
    {
      held, requestNumSamples := null, 0;
      if client != null {
        held, requestNumSamples := client, config.value.requestNumSamples;
        writers := writers[i := Lifecycle.Busy(client.config, requestNumSamples)];
      } else {
        isRunning := false;
        writers := writers[..i] + writers[i + 1..];
      }
    }

    /** After writing and sleeping the writer is back at the top of its loop. */
    method Finish(i: nat)
      requires i < |writers| && writers[i].Busy?
      modifies this`writers
      ensures Control() == Lifecycle.Next(old(Control()), Lifecycle.Finish(i))
    {
      writers := writers[i := Lifecycle.AtTop];
    }
  }
}
