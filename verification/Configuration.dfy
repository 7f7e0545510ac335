/** The configuration manager: the gate that ignores messages bringing nothing new, the
    notification of observers, one of which writes into the message, and the configuration file. */
module Configuration {
  import opened Fresh
  import opened Labels
  import opened Options

  /** A named part of a message. parses tells whether the specification of a workload does; labels
      is its label map, if it has one. */
  datatype Item =
    | Secret(name: string, data: string)
    | Workload(name: string, specification: string, parses: bool, labels: Option<map<string, string>>, authFile: string)

  datatype Message = Message(deviceID: string, version: string, configuration: string,
                             workloads: seq<Item>, secrets: seq<Item>)

  // ---------- The unordered comparison ----------

  ghost predicate DistinctNames(items: seq<Item>)
  {
    forall i, j :: 0 <= i < j < |items| ==> items[i].name != items[j].name
  }

  /** The map the comparison builds: the last item of each name. */
  function ByName(items: seq<Item>, n: nat): map<string, Item>
    requires n <= |items|
  {
    if n == 0 then map[] else ByName(items, n - 1)[items[n - 1].name := items[n - 1]]
  }

  /** Every item of y is the one x has under its name. */
  ghost predicate EqualByName(x: seq<Item>, y: seq<Item>)
  {
    && |x| == |y|
    && forall k :: 0 <= k < |y| ==> y[k].name in ByName(x, |x|) && ByName(x, |x|)[y[k].name] == y[k]
  }

  method IsEqualUnordered(x: seq<Item>, y: seq<Item>) returns (equal: bool)
    ensures equal <==> EqualByName(x, y)
    ensures DistinctNames(y) ==> (equal <==> multiset(x) == multiset(y))
  {
    if DistinctNames(y) {
      ComparisonIsMultisetEquality(x, y);
    }
    if |x| != |y| {
      return false;
    }
    var items := map[];
    for i := 0 to |x|
      invariant items == ByName(x, i)
    {
      items := items[x[i].name := x[i]];
    }
    for i := 0 to |y|
      invariant forall k :: 0 <= k < i ==> y[k].name in items && items[y[k].name] == y[k]
    {
      if y[i].name !in items || items[y[i].name] != y[i] {
        return false;
      }
    }
    return true;
  }

  lemma {:induction false} ByNameHolds(items: seq<Item>, n: nat)
    requires n <= |items|
    ensures forall name :: name in ByName(items, n) ==>
              exists k :: 0 <= k < n && items[k] == ByName(items, n)[name] && items[k].name == name
    ensures forall k :: 0 <= k < n ==> items[k].name in ByName(items, n)
  {
    if n > 0 {
      ByNameHolds(items, n - 1);
      assert items[n - 1] == ByName(items, n)[items[n - 1].name];
    }
  }

  lemma SubMultiset(a: multiset<Item>, b: multiset<Item>)
    requires a <= b && |a| == |b|
    ensures a == b
  {
    assert b == a + (b - a);
    assert |b - a| == 0;
  }

  lemma {:induction false} DistinctOccurOnce(items: seq<Item>, k: nat)
    requires DistinctNames(items) && k < |items|
    ensures multiset(items)[items[k]] == 1
  {
    var before, after := items[..k], items[k + 1..];
    assert items == before + [items[k]] + after;
    assert items[k] !in before && items[k] !in after;
  }

  /** With distinct names in y the comparison is equality up to order. */
  lemma ComparisonIsMultisetEquality(x: seq<Item>, y: seq<Item>)
    requires DistinctNames(y)
    ensures EqualByName(x, y) <==> multiset(x) == multiset(y)
  {
    ByNameHolds(x, |x|);
    if EqualByName(x, y) {
      forall item | item in multiset(y)
        ensures multiset(y)[item] <= multiset(x)[item]
      {
        var k :| 0 <= k < |y| && y[k] == item;
        DistinctOccurOnce(y, k);
        assert item in x;
      }
      SubMultiset(multiset(y), multiset(x));
    }
    if multiset(x) == multiset(y) {
      assert |x| == |multiset(x)| == |multiset(y)| == |y|;
      forall k | 0 <= k < |y|
        ensures y[k].name in ByName(x, |x|) && ByName(x, |x|)[y[k].name] == y[k]
      {
        assert y[k] in multiset(x);
        var i :| 0 <= i < |x| && x[i] == y[k];
        var found := ByName(x, |x|)[y[k].name];
        assert found in multiset(x) && found in multiset(y);
        var j :| 0 <= j < |y| && y[j] == found;
      }
    }
  }

  /** And only then: the comparison decides equality up to order against y, for every x, exactly
      when the names in y are distinct. */
  lemma ComparisonIsRightExactlyForDistinctNames(y: seq<Item>)
    ensures (forall x :: EqualByName(x, y) <==> multiset(x) == multiset(y)) <==> DistinctNames(y)
  {
    if DistinctNames(y) {
      forall x
        ensures EqualByName(x, y) <==> multiset(x) == multiset(y)
      {
        ComparisonIsMultisetEquality(x, y);
      }
    } else {
      var x := Confusing(y);
      assert !(EqualByName(x, y) <==> multiset(x) == multiset(y));
    }
  }

  /** A list the comparison gets wrong: y itself, when two different items share a name, or else y
      with one of two equal items replaced. */
  lemma Confusing(y: seq<Item>) returns (x: seq<Item>)
    requires !DistinctNames(y)
    ensures !(EqualByName(x, y) <==> multiset(x) == multiset(y))
  {
    if i, j :| 0 <= i < |y| && 0 <= j < |y| && y[i].name == y[j].name && y[i] != y[j] {
      x := y;
    } else {
      var i, j :| 0 <= i < j < |y| && y[i].name == y[j].name;
      var names := set k | 0 <= k < |y| :: y[k].name;
      FreshString(names);
      var name :| name !in names && name != "";
      x := y[i := Secret(name, "")];
      ByNameHolds(x, |x|);
      forall k | 0 <= k < |y|
        ensures y[k].name in ByName(x, |x|) && ByName(x, |x|)[y[k].name] == y[k]
      {
        assert x[if k == i then j else k] == y[k];
        assert y[k].name in names;
      }
      assert x[i] in multiset(x) && x[i] !in y;
    }
  }

  // ---------- The labels the workload manager adds ----------

  /** Some label that the pod of the item needs would be written into its label map. */
  predicate NeedsLabels(item: Item)
  {
    item.Workload? && item.parses && item.labels.Some? && Lacks(item.labels.value, item.name, item.authFile)
  }

  function LabelledItem(item: Item): Item
  {
    if item.Workload? && item.parses && item.labels.Some? then
      item.(labels := Some(PodLabels(item.labels.value, item.name, item.authFile)))
    else item
  }

  function LabelledItems(items: seq<Item>): (labelled: seq<Item>)
    ensures |labelled| == |items|
  {
    seq(|items|, i requires 0 <= i < |items| => LabelledItem(items[i]))
  }

  /** The message as it is once the workload manager has seen it. */
  function Labelled(message: Message): Message
  {
    message.(workloads := LabelledItems(message.workloads))
  }

  /** No workload needs a label that it does not have. */
  ghost predicate Complete(message: Message)
  {
    forall k :: 0 <= k < |message.workloads| ==> !NeedsLabels(message.workloads[k])
  }

  lemma LabelledExactly(item: Item)
    ensures LabelledItem(item) != item <==> NeedsLabels(item)
    ensures !NeedsLabels(LabelledItem(item)) && LabelledItem(item).name == item.name
  {
    if item.Workload? && item.labels.Some? {
      PodLabelsAddExactly(item.labels.value, item.name, item.authFile);
    }
  }

  /** Only a workload with a label map and a specification that parses is written to, and only its
      labels. */
  lemma OnlyLabelsAreWritten(item: Item)
    ensures item.Secret? || !item.parses || item.labels.None? ==> LabelledItem(item) == item
    ensures item.Workload? && item.parses && item.labels.Some? ==>
              && LabelledItem(item).Workload? && LabelledItem(item).labels.Some?
              && item == LabelledItem(item).(labels := item.labels)
              && (NeedsLabels(item) <==> Lacks(item.labels.value, item.name, item.authFile))
  {
  }

  lemma LabelledIsComplete(message: Message)
    ensures Complete(Labelled(message))
    ensures Complete(message) <==> Labelled(message) == message
    ensures DistinctNames(message.workloads) ==> DistinctNames(Labelled(message).workloads)
  {
    hide LabelledItem, NeedsLabels;
    var labelled := Labelled(message).workloads;
    forall k | 0 <= k < |labelled|
      ensures !NeedsLabels(labelled[k]) && labelled[k].name == message.workloads[k].name
      ensures labelled[k] == message.workloads[k] <==> !NeedsLabels(message.workloads[k])
    {
      LabelledExactly(message.workloads[k]);
    }
    if Complete(message) {
      assert labelled == message.workloads;
    }
  }

  method LabelWorkloads(items: seq<Item>) returns (labelled: seq<Item>)
    ensures labelled == LabelledItems(items)
  {
    labelled := items;
    for i := 0 to |items|
      invariant |labelled| == |items|
      invariant forall k :: 0 <= k < i ==> labelled[k] == LabelledItem(items[k])
      invariant forall k :: i <= k < |items| ==> labelled[k] == items[k]
    {
      var item := items[i];
      if item.Workload? && item.parses && item.labels.Some? {
        var written := AddPodLabels(item.labels.value, item.name, item.authFile);
        labelled := labelled[i := item.(labels := Some(written))];
      }
    }
  }

  // ---------- The manager as a function ----------

  const DEFAULT := Message("", "", "default", [], [])

  datatype File = Missing | Garbled | Holds(message: Message)

  /** The message cannot be encoded, or writing it fails, which leaves the old content or something
      unreadable. */
  datatype WriteOutcome = Stored | Kept | Garbles | Unencodable

  datatype State = State(current: Message, initialConfig: bool, file: File)

  function Loaded(file: File): State
  {
    match file
    case Missing => State(DEFAULT, true, file)
    case Garbled => State(DEFAULT, false, file)
    case Holds(message) => State(message, false, file)
  }

  /** The manager once the workload manager is registered with it. */
  function Started(file: File): State
  {
    Loaded(file).(current := Labelled(Loaded(file).current))
  }

  /** Nothing the gate looks at differs. */
  ghost predicate Unchanged(s: State, message: Message)
  {
    && message.configuration == s.current.configuration
    && EqualByName(message.workloads, s.current.workloads)
    && EqualByName(message.secrets, s.current.secrets)
  }

  ghost predicate ShouldUpdate(s: State, message: Message)
  {
    s.initialConfig || !Unchanged(s, message)
  }

  /** told is the message as the observers leave it; the file gets it as it came. */
  ghost function ReceivedAs(s: State, message: Message, told: Message, write: WriteOutcome): State
  {
    if !ShouldUpdate(s, message) then s
    else match write
    case Stored => State(told, false, Holds(message))
    case Kept => s
    case Garbles => s.(file := Garbled)
    case Unencodable => s
  }

  ghost function Received(s: State, message: Message, write: WriteOutcome): State
  {
    ReceivedAs(s, message, Labelled(message), write)
  }

  /** The same configuration, workloads and secrets up to the order of the lists. */
  ghost predicate SameUpToOrder(x: Message, y: Message)
  {
    && x.configuration == y.configuration
    && multiset(x.workloads) == multiset(y.workloads)
    && multiset(x.secrets) == multiset(y.secrets)
  }

  /** What the message asks for, with the labels its pods need, is in force. */
  ghost predicate InForce(s: State, message: Message)
  {
    SameUpToOrder(s.current, Labelled(message))
  }

  ghost predicate Distinct(message: Message)
  {
    DistinctNames(message.workloads) && DistinctNames(message.secrets)
  }

  /** What the manager holds: distinct names, and the labels in place. */
  ghost predicate Held(message: Message)
  {
    Distinct(message) && Complete(message)
  }

  lemma UnchangedIsSame(s: State, message: Message)
    requires Distinct(s.current)
    ensures Unchanged(s, message) <==> SameUpToOrder(s.current, message)
  {
    ComparisonIsMultisetEquality(message.workloads, s.current.workloads);
    ComparisonIsMultisetEquality(message.secrets, s.current.secrets);
  }

  lemma SameIsComplete(x: Message, y: Message)
    requires Complete(x) && SameUpToOrder(x, y)
    ensures Complete(y)
  {
    forall k | 0 <= k < |y.workloads|
      ensures !NeedsLabels(y.workloads[k])
    {
      assert y.workloads[k] in multiset(y.workloads);
      assert y.workloads[k] in x.workloads;
    }
  }

  /** The gate lets a message through exactly in the initial phase, when it asks for something that
      is not in force, or when a workload in it comes without a label its pod needs. */
  lemma GateIsInForce(s: State, message: Message)
    requires Held(s.current)
    ensures ShouldUpdate(s, message) <==> s.initialConfig || !InForce(s, message) || !Complete(message)
  {
    hide NeedsLabels, Labelled;
    UnchangedIsSame(s, message);
    LabelledIsComplete(message);
    if SameUpToOrder(s.current, message) {
      SameIsComplete(s.current, message);
    }
  }

  /** A message is in force once it was stored, or was skipped as unchanged; and a failed write
      leaves a new message not in force, so that it is processed again when it is repeated. */
  lemma UpdateTakesEffect(s: State, message: Message, write: WriteOutcome)
    requires Held(s.current)
    ensures !ShouldUpdate(s, message) || write == Stored ==> InForce(Received(s, message, write), message)
    ensures ShouldUpdate(s, message) && write != Stored ==>
              && (InForce(Received(s, message, write), message) <==> InForce(s, message))
              && ShouldUpdate(Received(s, message, write), message)
  {
    GateIsInForce(s, message);
  }

  /** Past the initial phase a message that asks for what is in force, in any order, is ignored if and
      only if each workload in it comes with the labels its pod needs. */
  lemma ReorderedIsIgnored(s: State, message: Message)
    requires Held(s.current) && !s.initialConfig && InForce(s, message)
    ensures !ShouldUpdate(s, message) <==> Complete(message)
  {
    GateIsInForce(s, message);
  }

  /** A stored message that is sent again passes the gate again if and only if some workload in it
      comes without a label its pod needs: the manager then holds it with the label. */
  lemma RepeatPassesExactly(s: State, message: Message)
    requires Held(s.current) && Distinct(message) && ShouldUpdate(s, message)
    ensures var t := Received(s, message, Stored);
            Held(t.current) && (ShouldUpdate(t, message) <==> !Complete(message))
  {
    var t := Received(s, message, Stored);
    LabelledIsComplete(message);
    GateIsInForce(t, message);
  }

  /** After a restart the message in the file passes the gate again exactly when a workload in it comes
      without a label its pod needs: a configuration that could be read is not an initial one. */
  lemma RepeatAfterRestartExactly(message: Message)
    requires Distinct(message)
    ensures ShouldUpdate(Started(Holds(message)), message) <==> !Complete(message)
  {
    LabelledIsComplete(message);
    GateIsInForce(Started(Holds(message)), message);
  }

  ghost predicate SameIdentity(x: Message, y: Message)
  {
    x.version == y.version && x.deviceID == y.deviceID
  }

  /** The gate does not look at the version or the device: those of a message get into memory
      exactly when something else lets it through, and it is then stored. */
  lemma IdentityTakenExactly(s: State, message: Message, write: WriteOutcome)
    requires Held(s.current) && !SameIdentity(s.current, message)
    ensures SameIdentity(Received(s, message, write).current, message) <==>
            (s.initialConfig || !InForce(s, message) || !Complete(message)) && write == Stored
    ensures !s.initialConfig && InForce(s, message) && Complete(message) ==> Received(s, message, write) == s
  {
    GateIsInForce(s, message);
  }

  // ---------- Runs ----------

  datatype Event = Receive(message: Message, write: WriteOutcome) | Restart

  ghost function Next(s: State, e: Event): State
  {
    match e
    case Receive(message, write) => Received(s, message, write)
    case Restart => Started(s.file)
  }

  /** A run from the start of the process, over messages with distinct names. */
  ghost predicate IsRun(states: seq<State>, events: seq<Event>)
  {
    && |states| == |events| + 1
    && states[0] == Started(states[0].file) && (states[0].file.Holds? ==> Distinct(states[0].file.message))
    && (forall i :: 0 <= i < |events| ==> states[i + 1] == Next(states[i], events[i]))
    && (forall i :: 0 <= i < |events| && events[i].Receive? ==> Distinct(events[i].message))
  }

  /** Memory holds what a restart would come to hold, unless a write garbled the file. */
  ghost predicate FileInStep(s: State)
  {
    && Held(s.current)
    && (s.file.Holds? ==> Distinct(s.file.message))
    && (s.file.Garbled? || Started(s.file).current == s.current)
    && (s.file.Missing? ==> s.initialConfig)
  }

  lemma StartIsInStep(file: File)
    requires file.Holds? ==> Distinct(file.message)
    ensures FileInStep(Started(file))
  {
    LabelledIsComplete(Loaded(file).current);
  }

  lemma StepKeepsInStep(s: State, message: Message, write: WriteOutcome)
    requires FileInStep(s) && Distinct(message)
    ensures FileInStep(Received(s, message, write))
  {
    hide ShouldUpdate;
    LabelledIsComplete(message);
  }

  lemma {:induction false} RunsStayInStep(states: seq<State>, events: seq<Event>, i: nat)
    requires IsRun(states, events) && i <= |events|
    ensures FileInStep(states[i])
  {
    hide FileInStep, Received, Started, Distinct;
    if i == 0 {
      StartIsInStep(states[0].file);
    } else {
      RunsStayInStep(states, events, i - 1);
      if events[i - 1].Receive? {
        StepKeepsInStep(states[i - 1], events[i - 1].message, events[i - 1].write);
      } else {
        FileDistinct(states[i - 1]);
        StartIsInStep(states[i - 1].file);
      }
    }
  }

  lemma FileDistinct(s: State)
    requires FileInStep(s)
    ensures Held(s.current) && (s.file.Holds? ==> Distinct(s.file.message))
  {
  }

  /** Over every run, with any failing writes and any restarts: after each message that was stored
      or skipped the manager has it in force, and a restart then brings the same configuration
      back, except after a write that garbled the file. */
  lemma RunsTakeEffect(states: seq<State>, events: seq<Event>, i: nat)
    requires IsRun(states, events) && i < |events| && events[i].Receive?
    ensures !ShouldUpdate(states[i], events[i].message) || events[i].write == Stored ==>
              InForce(states[i + 1], events[i].message)
    ensures states[i + 1].file != Garbled ==> Started(states[i + 1].file).current == states[i + 1].current
  {
    RunsStayInStep(states, events, i);
    RunsStayInStep(states, events, i + 1);
    UpdateTakesEffect(states[i], events[i].message, events[i].write);
  }

  /** A process that started at event r is in the initial phase exactly when it found no file and has
      stored no message since. */
  lemma {:induction false} InitialExactly(states: seq<State>, events: seq<Event>, r: nat, i: nat)
    requires IsRun(states, events) && r <= i <= |events| && (r > 0 ==> events[r - 1].Restart?)
    requires forall k :: r <= k < i ==> events[k].Receive?
    ensures states[i].initialConfig <==>
            states[r].file.Missing? && forall k :: r <= k < i ==> events[k].write != Stored
  {
    hide Unchanged, Labelled;
    if r < i {
      InitialExactly(states, events, r, i - 1);
    }
  }

  /** Over every run, what memory holds differs from the file's message exactly when a workload in
      that message came without a label its pod needs. */
  lemma MemoryDiffersFromFile(states: seq<State>, events: seq<Event>, i: nat)
    requires IsRun(states, events) && i <= |events| && states[i].file.Holds?
    ensures states[i].current != states[i].file.message <==> !Complete(states[i].file.message)
  {
    RunsStayInStep(states, events, i);
    LabelledIsComplete(states[i].file.message);
  }

  /** A message sent again and again is stored each time: when a workload in it comes without a label
      its pod needs, none of the repetitions is ignored, and when all come with theirs, every one is. */
  lemma {:induction false} RepeatedForever(states: seq<State>, events: seq<Event>, message: Message, i: nat)
    requires IsRun(states, events) && 0 < i < |events|
    requires forall k :: 0 <= k <= i ==> events[k] == Receive(message, Stored)
    ensures InForce(states[i], message)
    ensures ShouldUpdate(states[i], message) <==> !Complete(message)
  {
    RunsStayInStep(states, events, i - 1);
    RunsStayInStep(states, events, i);
    UpdateTakesEffect(states[i - 1], message, Stored);
    GateIsInForce(states[i], message);
    if !ShouldUpdate(states[i - 1], message) {
      GateIsInForce(states[i - 1], message);
    }
  }

  /** A message with one workload that asks for automatic updates by its label. */
  const AUTO_UPDATE_MESSAGE :=
    Message("device", "1", "configuration",
            [Workload("w", "specification", true, Some(map[AUTOUPDATE := "registry"]), "")], [])

  /** It is never settled: stored once, it passes the gate every time it is sent again, and memory
      differs from the file. */
  lemma AutoUpdateIsNeverSettled(states: seq<State>, events: seq<Event>, i: nat)
    requires IsRun(states, events) && 0 < i < |events|
    requires forall k :: 0 <= k <= i ==> events[k] == Receive(AUTO_UPDATE_MESSAGE, Stored)
    ensures ShouldUpdate(states[i], AUTO_UPDATE_MESSAGE)
    ensures states[i + 1].file == Holds(AUTO_UPDATE_MESSAGE) && states[i + 1].current != AUTO_UPDATE_MESSAGE
  {
    AutoUpdateLacksUnit();
    RepeatedForever(states, events, AUTO_UPDATE_MESSAGE, i);
    MemoryDiffersFromFile(states, events, i + 1);
  }

  lemma AutoUpdateLacksUnit()
    ensures !Complete(AUTO_UPDATE_MESSAGE)
  {
    hide Lacks;
    AutoUpdateAloneLacks("registry", "w");
    assert NeedsLabels(AUTO_UPDATE_MESSAGE.workloads[0]);
  }

  // ---------- What the observers know ----------

  /** What every observer was told last: the configuration it found when it was registered, at the
      start, or the last message that passed the gate and could be encoded, whether or not it could
      be stored. */
  ghost function Told(states: seq<State>, events: seq<Event>, i: nat): Message
    requires IsRun(states, events) && i <= |events|
  {
    if i == 0 || events[i - 1].Restart? then states[i].current
    else if IsTold(states[i - 1], events[i - 1]) then events[i - 1].message
    else Told(states, events, i - 1)
  }

  ghost predicate IsTold(s: State, e: Event)
  {
    e.Receive? && ShouldUpdate(s, e.message) && !e.write.Unencodable?
  }

  /** The last message the observers were told since the start asked for something that was not in
      force, and could not be stored. */
  ghost predicate NewAndNotStored(states: seq<State>, events: seq<Event>, i: nat)
    requires IsRun(states, events) && i <= |events|
  {
    if i == 0 || events[i - 1].Restart? then false
    else if IsTold(states[i - 1], events[i - 1]) then
      !InForce(states[i - 1], events[i - 1].message) && events[i - 1].write != Stored
    else NewAndNotStored(states, events, i - 1)
  }

  /** What the observers were told last is in force, except exactly after a new message that could not
      be stored. */
  lemma {:induction false} ToldIsInForceExactly(states: seq<State>, events: seq<Event>, i: nat)
    requires IsRun(states, events) && i <= |events|
    ensures InForce(states[i], Told(states, events, i)) <==> !NewAndNotStored(states, events, i)
  {
    hide EqualByName, DistinctNames, Unchanged, Labelled, Complete, FileInStep;
    RunsStayInStep(states, events, i);
    if i == 0 || events[i - 1].Restart? {
      HeldIsInForce(states[i]);
    } else {
      RunsStayInStep(states, events, i - 1);
      ToldIsInForceExactly(states, events, i - 1);
      ToldKeepsInForce(states[i - 1], events[i - 1], Told(states, events, i - 1));
    }
  }

  lemma HeldIsInForce(s: State)
    requires FileInStep(s)
    ensures InForce(s, s.current)
  {
    LabelledIsComplete(s.current);
  }

  lemma ToldKeepsInForce(s: State, e: Event, told: Message)
    requires FileInStep(s) && e.Receive?
    ensures IsTold(s, e) ==>
              (InForce(Next(s, e), e.message) <==> InForce(s, e.message) || e.write == Stored)
    ensures !IsTold(s, e) ==> Next(s, e) == s
  {
    UpdateTakesEffect(s, e.message, e.write);
  }

  /** Once they differ, a message that repeats what is in force puts the observers right exactly when
      it passes the gate only for a label it lacks, and can be encoded. */
  lemma RepeatLeavesObserversWrong(states: seq<State>, events: seq<Event>, i: nat)
    requires IsRun(states, events) && i < |events| && !states[i].initialConfig
    requires NewAndNotStored(states, events, i)
    requires events[i].Receive? && InForce(states[i], events[i].message)
    ensures InForce(states[i + 1], Told(states, events, i + 1)) <==>
            !Complete(events[i].message) && !events[i].write.Unencodable?
  {
    hide EqualByName, DistinctNames, Unchanged, Labelled, Complete, Started, SameUpToOrder, InForce;
    RunsStayInStep(states, events, i);
    GateIsInForce(states[i], events[i].message);
    ToldIsInForceExactly(states, events, i + 1);
  }

  // ---------- The manager ----------

  class Manager {
    var deviceConfiguration: Message
    var initialConfig: bool
    var deviceConfigFile: File
    var observers: seq<seq<Message>>  // what each observer was told
    var workloadManager: Option<nat>  // which of them is the workload manager

    ghost predicate Valid()
      reads this
    {
      workloadManager.Some? ==> workloadManager.value < |observers|
    }

    function Current(): State
      reads this
    {
      State(deviceConfiguration, initialConfig, deviceConfigFile)
    }

    /** The message as the observers leave it. */
    function Left(message: Message): Message
      reads this
    {
      if workloadManager.Some? then Labelled(message) else message
    }

    /** The message as the i-th observer sees it: those after the workload manager see its labels. */
    function AsToldTo(i: nat, message: Message): Message
      reads this
    {
      if workloadManager.Some? && workloadManager.value < i then Labelled(message) else message
    }

    constructor (file: File)
      ensures Valid() && Current() == Loaded(file) && observers == [] && workloadManager == None
    {
      deviceConfigFile, observers, workloadManager := file, [], None;
      match file {
        case Missing => deviceConfiguration, initialConfig := DEFAULT, true;
        case Garbled => deviceConfiguration, initialConfig := DEFAULT, false;
        case Holds(message) => deviceConfiguration, initialConfig := message, false;
      }
    }

    /** The observer is told the configuration as it is; the workload manager labels it. */
    method RegisterObserver(isWorkloadManager: bool)
      requires Valid() && (isWorkloadManager ==> workloadManager.None?)
      modifies this`observers, this`workloadManager, this`deviceConfiguration
      ensures Valid()
      ensures observers == old(observers) + [[old(deviceConfiguration)]]
      ensures isWorkloadManager ==>
                workloadManager.Some? && deviceConfiguration == Labelled(old(deviceConfiguration))
      ensures !isWorkloadManager ==>
                workloadManager == old(workloadManager) && deviceConfiguration == old(deviceConfiguration)
      ensures isWorkloadManager && old(Current()) == Loaded(deviceConfigFile) ==> Current() == Started(deviceConfigFile)
    {
      observers := observers + [[deviceConfiguration]];
      if isWorkloadManager {
        workloadManager := Some(|observers| - 1);
        var labelled := LabelWorkloads(deviceConfiguration.workloads);
        deviceConfiguration := deviceConfiguration.(workloads := labelled);
      }
    }

    /** Notifies every observer, whatever the others answer, and then stores the message. When the
        message cannot be encoded, nobody is told; when the file cannot be written only that error is
        reported. */
    method Update(message: Message, observerFails: nat -> bool, write: WriteOutcome) returns (errors: nat)
      requires Valid()
      modifies this`deviceConfiguration, this`initialConfig, this`deviceConfigFile, this`observers
      ensures Valid() && Current() == ReceivedAs(old(Current()), message, Left(message), write)
      ensures workloadManager.Some? ==> Current() == Received(old(Current()), message, write)
      ensures |observers| == |old(observers)|
      ensures forall i :: 0 <= i < |observers| ==>
                observers[i] == old(observers)[i] +
                  if IsTold(old(Current()), Receive(message, write)) then [AsToldTo(i, message)] else []
      ensures !ShouldUpdate(old(Current()), message) ==> errors == 0
      ensures ShouldUpdate(old(Current()), message) && write != Stored ==> errors == 1
      ensures ShouldUpdate(old(Current()), message) && write == Stored ==>
                (errors == 0 <==> forall i :: 0 <= i < |observers| ==> !observerFails(i))
    {
      hide EqualByName, Labelled;
      var configurationEqual := message.configuration == deviceConfiguration.configuration;
      var workloadsEqual := IsEqualUnordered(message.workloads, deviceConfiguration.workloads);
      var secretsEqual := IsEqualUnordered(message.secrets, deviceConfiguration.secrets);
      var shouldUpdate := !(configurationEqual && workloadsEqual && secretsEqual);
      if initialConfig {
        shouldUpdate := true;
      }
      if !shouldUpdate {
        return 0;
      }
      if write == Unencodable {
        return 1;
      }
      var told;
      errors, told := Notify(message, observerFails);
      match write {
        case Stored =>
          deviceConfigFile := Holds(message);
        case Kept =>
          return 1;
        case Garbles =>
          deviceConfigFile := Garbled;
          return 1;
        case Unencodable => assert false;
      }
      deviceConfiguration := told;
      initialConfig := false;
    }

    /** Tells every observer, in order; from the workload manager on they see its labels. */
    method Notify(message: Message, observerFails: nat -> bool) returns (errors: nat, told: Message)
      requires Valid()
      modifies this`observers
      ensures told == Left(message) && |observers| == |old(observers)|
      ensures forall i :: 0 <= i < |observers| ==>
                observers[i] == old(observers)[i] + [AsToldTo(i, message)]
      ensures errors == 0 <==> forall i :: 0 <= i < |observers| ==> !observerFails(i)
    {
      errors, told := 0, message;
      var i := 0;
      while i < |observers|
        invariant 0 <= i <= |observers| == |old(observers)|
        invariant told == AsToldTo(i, message)
        invariant forall k :: 0 <= k < i ==>
                    observers[k] == old(observers)[k] + [AsToldTo(k, message)]
        invariant forall k :: i <= k < |observers| ==> observers[k] == old(observers)[k]
        invariant errors == 0 <==> forall k :: 0 <= k < i ==> !observerFails(k)
      {
        observers := observers[i := observers[i] + [told]];
        if workloadManager == Some(i) {
          var labelled := LabelWorkloads(told.workloads);
          told := told.(workloads := labelled);
        }
        if observerFails(i) {
          errors := errors + 1;
        }
        i := i + 1;
      }
    }
  }
}
