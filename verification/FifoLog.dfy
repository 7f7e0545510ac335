/** The soft-bounded log of a transport and the loop that drains it. */
module FifoLog {
  import opened Options

  datatype LogEntry = LogEntry(data: string, workload: string)

  function SizeFirst(entries: seq<LogEntry>, n: nat): nat
    requires n <= |entries|
  {
    if n == 0 then 0 else SizeFirst(entries, n - 1) + |entries[n - 1].data|
  }

  function Size(entries: seq<LogEntry>): nat { SizeFirst(entries, |entries|) }

  lemma {:induction false} SizeAppend(x: seq<LogEntry>, y: seq<LogEntry>, n: nat)
    requires n <= |y|
    ensures SizeFirst(x + y, |x| + n) == Size(x) + SizeFirst(y, n)
  {
    if n == 0 {
      SizePrefix(x, y, |x|);
    } else {
      SizeAppend(x, y, n - 1);
    }
  }

  lemma {:induction false} SizePrefix(x: seq<LogEntry>, y: seq<LogEntry>, n: nat)
    requires n <= |x|
    ensures SizeFirst(x + y, n) == SizeFirst(x, n)
  {
    if n > 0 {
      SizePrefix(x, y, n - 1);
    }
  }

  lemma SizeSnoc(entries: seq<LogEntry>, e: LogEntry)
    ensures Size(entries + [e]) == Size(entries) + |e.data|
  {
    SizeAppend(entries, [e], 1);
    assert SizeFirst([e], 1) == SizeFirst([e], 0) + |e.data|;
  }

  lemma SizeTail(entries: seq<LogEntry>)
    requires entries != []
    ensures Size(entries) == |entries[0].data| + Size(entries[1..])
  {
    assert entries == [entries[0]] + entries[1..];
    SizeAppend([entries[0]], entries[1..], |entries| - 1);
    assert SizeFirst([entries[0]], 1) == SizeFirst([entries[0]], 0) + |entries[0].data|;
  }

  /** Nothing can be read exactly when every queued entry is empty: an entry without data waits
      until one with data follows it. */
  lemma {:induction false} SizeZero(entries: seq<LogEntry>, n: nat)
    requires n <= |entries|
    ensures SizeFirst(entries, n) == 0 <==> forall k :: 0 <= k < n ==> entries[k].data == ""
  {
    if n > 0 {
      SizeZero(entries, n - 1);
    }
  }

  lemma PositiveSize(entries: seq<LogEntry>)
    requires Size(entries) > 0
    ensures entries != []
  {
  }

  class FIFOLog {
    const maxlen: int
    var data: seq<LogEntry>
    var currentSize: int

    ghost predicate Valid()
      reads this
    {
      currentSize == Size(data)
    }

    constructor (maxSize: int)
      ensures Valid() && data == [] && maxlen == maxSize
    {
      maxlen, data, currentSize := maxSize, [], 0;
    }

    /** The limit is soft: an entry is taken while the limit is not yet exceeded. */
    method Write(entry: Option<LogEntry>) returns (ok: bool)
      requires Valid()
      modifies this
      ensures Valid()
      ensures ok == (entry.Some? && Size(old(data)) <= maxlen)
      ensures data == if ok then old(data) + [entry.value] else old(data)
    {
      if entry.None? {
        return false;
      }
      if currentSize > maxlen {
        return false;
      }
      SizeSnoc(data, entry.value);
      data := data + [entry.value];
      currentSize := currentSize + |entry.value.data|;
      return true;
    }

    /** Takes the first entry; there is always one when the size is positive. */
    method ReadLine() returns (entry: Option<LogEntry>)
      requires Valid()
      modifies this
      ensures Valid()
      ensures entry.None? <==> forall k :: 0 <= k < |old(data)| ==> old(data)[k].data == ""
      ensures entry.None? ==> data == old(data)
      ensures entry.Some? ==> old(data) == [entry.value] + data
    {
      SizeZero(data, |data|);
      if currentSize <= 0 {
        return None;
      }
      SizeTail(data);
      var res := data[0];
      data := data[1..];
      currentSize := currentSize - |res.data|;
      return Some(res);
    }
  }

  // ---------- Writers and the drain loop, interleaved ----------

  /** accepted, delivered and dropped list entries in the order it happened to them. */
  datatype State = State(queue: seq<LogEntry>, inFlight: Option<LogEntry>,
                         accepted: seq<LogEntry>, delivered: seq<LogEntry>, dropped: seq<LogEntry>)

  const INITIAL := State([], None, [], [], [])

  /** A writer offers an entry; the loop takes one; the transport sends or fails. */
  datatype Event = Offer(entry: LogEntry) | Take | Send(ok: bool)

  predicate HasRoom(queue: seq<LogEntry>, maxlen: int) { Size(queue) <= maxlen }

  predicate Enabled(s: State, e: Event)
  {
    match e
    case Offer(_) => true
    case Take => s.inFlight.None?
    case Send(_) => s.inFlight.Some?
  }

  function Next(s: State, e: Event, maxlen: int): State
    requires Enabled(s, e)
  {
    match e
    case Offer(entry) =>
      if HasRoom(s.queue, maxlen) then s.(queue := s.queue + [entry], accepted := s.accepted + [entry]) else s
    case Take =>
      if Size(s.queue) > 0 then
        assert s.queue != [];
        s.(queue := s.queue[1..], inFlight := Some(s.queue[0]))
      else s
    case Send(ok) =>
      var entry := s.inFlight.value;
      if ok then s.(inFlight := None, delivered := s.delivered + [entry])
      else if HasRoom(s.queue, maxlen) then s.(inFlight := None, queue := s.queue + [entry])
      else s.(inFlight := None, dropped := s.dropped + [entry])
  }

  ghost predicate IsRun(states: seq<State>, events: seq<Event>, maxlen: int)
  {
    && |states| == |events| + 1
    && states[0] == INITIAL
    && forall i :: 0 <= i < |events| ==>
         Enabled(states[i], events[i]) && states[i + 1] == Next(states[i], events[i], maxlen)
  }

  function Flight(s: State): seq<LogEntry>
  {
    if s.inFlight.Some? then [s.inFlight.value] else []
  }

  /** Every accepted entry is delivered, queued, in flight or was dropped when it could not be
      requeued. */
  ghost predicate Conserves(s: State)
  {
    multiset(s.accepted) == multiset(s.delivered) + multiset(s.queue) + multiset(Flight(s)) + multiset(s.dropped)
  }

  ghost function Occurs(entries: seq<LogEntry>, x: LogEntry): nat { multiset(entries)[x] }

  /** The same for the occurrences of one entry. */
  ghost predicate ConservesOne(s: State, x: LogEntry)
  {
    Occurs(s.accepted, x) == Occurs(s.delivered, x) + Occurs(s.queue, x) + Occurs(Flight(s), x) + Occurs(s.dropped, x)
  }

  ghost predicate AtMost(entries: seq<LogEntry>, largest: nat)
  {
    forall e :: e in entries ==> |e.data| <= largest
  }

  ghost predicate Bounded(s: State, maxlen: int, largest: nat)
  {
    Size(s.queue) <= maxlen + largest && AtMost(s.queue, largest) && AtMost(Flight(s), largest)
  }

  lemma StepConserves(s: State, e: Event, maxlen: int)
    requires Enabled(s, e) && Conserves(s)
    ensures Conserves(Next(s, e, maxlen))
  {
    var t := Next(s, e, maxlen);
    hide Next, Enabled;
    forall x: LogEntry
      ensures ConservesOne(t, x)
    {
      assert ConservesOne(s, x);
      StepConservesOne(s, e, maxlen, x);
    }
    OneByOne(t);
  }

  lemma OneByOne(s: State)
    requires forall x :: ConservesOne(s, x)
    ensures Conserves(s)
  {
    var parts := multiset(s.delivered) + multiset(s.queue) + multiset(Flight(s)) + multiset(s.dropped);
    forall x: LogEntry
      ensures multiset(s.accepted)[x] == parts[x]
    {
      assert ConservesOne(s, x);
    }
  }

  lemma StepConservesOne(s: State, e: Event, maxlen: int, x: LogEntry)
    requires Enabled(s, e) && ConservesOne(s, x)
    ensures ConservesOne(Next(s, e, maxlen), x)
  {
    hide SizeFirst, Occurs;
    OccursNowhere(x);
    match e
    case Offer(entry) =>
      OccursOnceMore(s.queue, entry, x);
      OccursOnceMore(s.accepted, entry, x);
    case Take =>
      if Size(s.queue) > 0 {
        PositiveSize(s.queue);
        OccursOnceLess(s.queue, x);
      }
    case Send(_) =>
      OccursOnceMore(s.queue, s.inFlight.value, x);
      OccursOnceMore(s.delivered, s.inFlight.value, x);
      OccursOnceMore(s.dropped, s.inFlight.value, x);
  }

  lemma OccursNowhere(x: LogEntry)
    ensures Occurs([], x) == 0
  {
  }

  lemma OccursOnceMore(entries: seq<LogEntry>, entry: LogEntry, x: LogEntry)
    ensures Occurs(entries + [entry], x) == Occurs(entries, x) + Occurs([entry], x)
  {
  }

  lemma OccursOnceLess(entries: seq<LogEntry>, x: LogEntry)
    requires entries != []
    ensures Occurs(entries, x) == Occurs(entries[1..], x) + Occurs([entries[0]], x)
  {
    assert entries == [entries[0]] + entries[1..];
  }

  lemma StepBounds(s: State, e: Event, maxlen: int, largest: nat)
    requires Enabled(s, e) && Bounded(s, maxlen, largest) && maxlen >= 0
    requires e.Offer? ==> |e.entry.data| <= largest
    ensures Bounded(Next(s, e, maxlen), maxlen, largest)
  {
    match e
    case Offer(entry) => SizeSnoc(s.queue, entry);
    case Take =>
      if Size(s.queue) > 0 {
        SizeTail(s.queue);
        assert s.queue[0] in s.queue;
      }
    case Send(_) => SizeSnoc(s.queue, s.inFlight.value);
  }

  lemma {:induction false} RunsConserve(states: seq<State>, events: seq<Event>, maxlen: int, i: nat)
    requires IsRun(states, events, maxlen) && i <= |events|
    ensures Conserves(states[i])
  {
    if i > 0 {
      RunsConserve(states, events, maxlen, i - 1);
      StepConserves(states[i - 1], events[i - 1], maxlen);
    }
  }

  /** The queue never holds more than the limit and one largest entry. */
  lemma {:induction false} RunsStayBounded(states: seq<State>, events: seq<Event>, maxlen: int, largest: nat, i: nat)
    requires IsRun(states, events, maxlen) && i <= |events| && maxlen >= 0
    requires forall k :: 0 <= k < |events| && events[k].Offer? ==> |events[k].entry.data| <= largest
    ensures Bounded(states[i], maxlen, largest)
  {
    if i > 0 {
      RunsStayBounded(states, events, maxlen, largest, i - 1);
      StepBounds(states[i - 1], events[i - 1], maxlen, largest);
    }
  }

  /** While the transport does not fail, entries are delivered in the order they were accepted and
      none is lost. */
  lemma {:induction false} DeliversInOrder(states: seq<State>, events: seq<Event>, maxlen: int, i: nat)
    requires IsRun(states, events, maxlen) && i <= |events|
    requires forall k :: 0 <= k < i && events[k].Send? ==> events[k].ok
    ensures InOrder(states[i])
  {
    if i > 0 {
      DeliversInOrder(states, events, maxlen, i - 1);
      StepInOrder(states[i - 1], events[i - 1], maxlen);
    }
  }

  ghost predicate InOrder(s: State)
  {
    s.accepted == s.delivered + Flight(s) + s.queue && s.delivered <= s.accepted && s.dropped == []
  }

  lemma StepInOrder(s: State, e: Event, maxlen: int)
    requires Enabled(s, e) && InOrder(s) && (e.Send? ==> e.ok)
    ensures InOrder(Next(s, e, maxlen))
  {
    if e.Take? && Size(s.queue) > 0 {
      assert s.queue == [s.queue[0]] + s.queue[1..];
    }
  }

  /** An entry that the transport fails for, while there is room, is delivered after all that were
      queued by then and before all that are accepted later, as long as the transport does not fail
      again. */
  lemma {:induction false} FailedGoesLast(states: seq<State>, events: seq<Event>, maxlen: int, i: nat, j: nat)
    requires IsRun(states, events, maxlen) && i < j <= |events|
    requires events[i] == Send(false) && Size(states[i].queue) <= maxlen
    requires forall k :: i < k < j && events[k].Send? ==> events[k].ok
    ensures states[i].inFlight.Some? && states[i].accepted <= states[j].accepted
    ensures states[j].delivered + Flight(states[j]) + states[j].queue ==
            states[i].delivered + states[i].queue + [states[i].inFlight.value]
              + states[j].accepted[|states[i].accepted|..]
  {
    if j == i + 1 {
      assert states[j] == Next(states[i], events[i], maxlen);
    } else {
      FailedGoesLast(states, events, maxlen, i, j - 1);
      StepKeepsOrder(states[j - 1], events[j - 1], maxlen,
                     states[i].delivered + states[i].queue + [states[i].inFlight.value], |states[i].accepted|);
    }
  }

  lemma StepKeepsOrder(s: State, e: Event, maxlen: int, first: seq<LogEntry>, n: nat)
    requires Enabled(s, e) && (e.Send? ==> e.ok) && n <= |s.accepted|
    requires s.delivered + Flight(s) + s.queue == first + s.accepted[n..]
    ensures var t := Next(s, e, maxlen);
            && s.accepted <= t.accepted
            && t.delivered + Flight(t) + t.queue == first + t.accepted[n..]
  {
    var t := Next(s, e, maxlen);
    match e
    case Offer(entry) =>
      if t != s {
        assert t.accepted[n..] == s.accepted[n..] + [entry];
        calc {
          t.delivered + Flight(t) + t.queue;
          (s.delivered + Flight(s) + s.queue) + [entry];
          (first + s.accepted[n..]) + [entry];
          first + t.accepted[n..];
        }
      }
    case Take =>
      if Size(s.queue) > 0 {
        assert s.queue == [s.queue[0]] + s.queue[1..];
      }
    case Send(_) =>
  }

  /** Taking an entry finds one exactly when some queued entry has data, and it is the first. */
  lemma TakeFindsData(s: State, maxlen: int)
    requires Enabled(s, Take)
    ensures var t := Next(s, Take, maxlen);
            && (t.inFlight.Some? <==> exists e :: e in s.queue && e.data != "")
            && (t.inFlight.Some? ==> s.queue == [t.inFlight.value] + t.queue)
  {
    SizeZero(s.queue, |s.queue|);
  }

  ghost predicate WithoutData(entries: seq<LogEntry>)
  {
    forall e :: e in entries ==> e.data == ""
  }

  /** While only entries without data are accepted nothing is delivered. */
  lemma {:induction false} EntriesWithoutDataWait(states: seq<State>, events: seq<Event>, maxlen: int, i: nat)
    requires IsRun(states, events, maxlen) && i <= |events| && WithoutData(states[i].accepted)
    ensures states[i].delivered == [] && states[i].inFlight.None? && states[i].queue == states[i].accepted
  {
    hide SizeFirst;
    if i > 0 {
      var s := states[i - 1];
      assert forall e :: e in s.accepted ==> e in states[i].accepted;
      EntriesWithoutDataWait(states, events, maxlen, i - 1);
      if events[i - 1].Take? {
        TakeFindsData(s, maxlen);
      }
    }
  }

  /** The transport fails while the queue is over its limit. */
  predicate Overflows(s: State, e: Event, maxlen: int)
  {
    e == Send(false) && !HasRoom(s.queue, maxlen)
  }

  /** Over a run, in every interleaving, some entry has been lost exactly when at some time the
      transport failed while the queue was over its limit. */
  lemma {:induction false} LostExactlyWhenFull(states: seq<State>, events: seq<Event>, maxlen: int, i: nat)
    requires IsRun(states, events, maxlen) && i <= |events|
    ensures states[i].dropped != [] <==> exists k :: 0 <= k < i && Overflows(states[k], events[k], maxlen)
  {
    if i > 0 {
      LostExactlyWhenFull(states, events, maxlen, i - 1);
      assert states[i] == Next(states[i - 1], events[i - 1], maxlen);
      if Overflows(states[i - 1], events[i - 1], maxlen) {
        assert states[i].dropped != [];
      }
    }
  }

  /** No data disappears: what was accepted is as large as what was delivered, is kept, or was lost. */
  predicate SizesAgree(s: State)
  {
    Size(s.accepted) == Size(s.delivered) + Size(s.queue) + Size(Flight(s)) + Size(s.dropped)
  }

  lemma SizeOne(e: LogEntry)
    ensures Size([e]) == |e.data| && Size([]) == 0
  {
    SizeSnoc([], e);
    assert [] + [e] == [e];
  }

  lemma StepKeepsSizes(s: State, e: Event, maxlen: int)
    requires Enabled(s, e) && SizesAgree(s)
    ensures SizesAgree(Next(s, e, maxlen))
  {
    hide SizeFirst;
    match e
    case Offer(entry) =>
      SizeSnoc(s.queue, entry);
      SizeSnoc(s.accepted, entry);
    case Take =>
      if Size(s.queue) > 0 {
        PositiveSize(s.queue);
        SizeTail(s.queue);
        SizeOne(s.queue[0]);
      }
    case Send(_) =>
      SizeOne(s.inFlight.value);
      SizeSnoc(s.queue, s.inFlight.value);
      SizeSnoc(s.delivered, s.inFlight.value);
      SizeSnoc(s.dropped, s.inFlight.value);
  }

  lemma {:induction false} RunsKeepSizes(states: seq<State>, events: seq<Event>, maxlen: int, i: nat)
    requires IsRun(states, events, maxlen) && i <= |events|
    ensures SizesAgree(states[i])
    ensures forall k :: 0 <= k <= i ==> Size(states[k].accepted) <= Size(states[i].accepted)
  {
    if i > 0 {
      RunsKeepSizes(states, events, maxlen, i - 1);
      StepKeepsSizes(states[i - 1], events[i - 1], maxlen);
      if events[i - 1].Offer? {
        SizeSnoc(states[i - 1].accepted, events[i - 1].entry);
      }
    }
  }

  /** A workload that writes no more than the limit loses nothing, however often the transport
      fails. */
  lemma NothingLostWithinLimit(states: seq<State>, events: seq<Event>, maxlen: int, i: nat)
    requires IsRun(states, events, maxlen) && i <= |events| && Size(states[i].accepted) <= maxlen
    ensures states[i].dropped == []
  {
    RunsKeepSizes(states, events, maxlen, i);
    LostExactlyWhenFull(states, events, maxlen, i);
    forall k | 0 <= k < i
      ensures !Overflows(states[k], events[k], maxlen)
    {
      RunsKeepSizes(states, events, maxlen, k);
    }
  }

  class TransportLog {
    const log: FIFOLog
    var inFlight: Option<LogEntry>
    ghost var accepted: seq<LogEntry>
    ghost var delivered: seq<LogEntry>
    ghost var dropped: seq<LogEntry>

    ghost predicate Valid()
      reads this, log
    {
      log.Valid()
    }

    ghost function Current(): State
      reads this, log
    {
      State(log.data, inFlight, accepted, delivered, dropped)
    }

    constructor (maxSize: int)
      ensures Valid() && fresh(log) && Current() == INITIAL && log.maxlen == maxSize
    {
      log := new FIFOLog(maxSize);
      inFlight, accepted, delivered, dropped := None, [], [], [];
    }

    /** A workload's writer hands an entry to the log. */
    method Offered(entry: LogEntry) returns (ok: bool)
      requires Valid()
      modifies this, log
      ensures Valid() && Current() == Next(old(Current()), Offer(entry), log.maxlen)
      ensures ok == HasRoom(old(log.data), log.maxlen)
    {
      ok := log.Write(Some(entry));
      if ok {
        accepted := accepted + [entry];
      }
    }

    /** The drain loop looks for an entry. */
    method TakeNext()
      requires Valid() && inFlight.None?
      modifies this, log
      ensures Valid() && Current() == Next(old(Current()), Take, log.maxlen)
    {
      SizeZero(log.data, |log.data|);
      inFlight := log.ReadLine();
    }

    /** The drain loop writes the entry to the transport; after a failure it goes to the back of the
        queue, or is lost when there is no room. */
    method SendNext(ok: bool)
      requires Valid() && inFlight.Some?
      modifies this, log
      ensures Valid() && Current() == Next(old(Current()), Send(ok), log.maxlen)
    {
      var entry := inFlight.value;
      if ok {
        delivered := delivered + [entry];
      } else {
        var requeued := log.Write(Some(entry));
        if !requeued {
          dropped := dropped + [entry];
        }
      }
      inFlight := None;
    }
  }
}
