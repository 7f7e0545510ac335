/** The life of the writer goroutine: configuration updates interleaved with the steps of the
    writers they start. Every step happens under the writer's lock. */
module Lifecycle {
  import opened Options
  import opened Delivery

  /** A live writer goroutine: about to read the configuration, or writing and sleeping with
      what it read. */
  datatype Writer = AtTop | Busy(client: Receiver, requestNumSamples: int)

  /** client is the configuration the current client was built from. */
  datatype State = State(config: Option<Receiver>, client: Option<Receiver>, isRunning: bool, writers: seq<Writer>)

  const INITIAL := State(None, None, false, [])

  /** buildOk: the URL parses and the CA file and the client can be created. */
  datatype Event =
    | Reconfigure(newConfig: Option<Receiver>, buildOk: bool)
    | Poll(writer: nat)
    | Finish(writer: nat)

  predicate Disabled(config: Option<Receiver>)
  {
    config.None? || config.value.url == ""
  }

  predicate Accepts(config: Receiver, buildOk: bool)
  {
    buildOk && config.timeoutSeconds != 0 && config.requestNumSamples != 0
  }

  predicate Rejected(s: State, newConfig: Option<Receiver>, buildOk: bool)
  {
    newConfig != s.config && !Disabled(newConfig) && !Accepts(newConfig.value, buildOk)
  }

  function Reconfigured(s: State, newConfig: Option<Receiver>, buildOk: bool): State
  {
    if newConfig == s.config || Rejected(s, newConfig, buildOk) then s
    else if Disabled(newConfig) then s.(config := newConfig, client := None)
    else State(newConfig, newConfig, true, if s.isRunning then s.writers else s.writers + [AtTop])
  }

  function Polled(s: State, i: nat): State
    requires i < |s.writers| && (s.client.Some? ==> s.config.Some?)
  {
    if s.client.Some? then
      s.(writers := s.writers[i := Busy(s.client.value, s.config.value.requestNumSamples)])
    else
      s.(isRunning := false, writers := s.writers[..i] + s.writers[i + 1..])
  }

  predicate Enabled(s: State, e: Event)
  {
    match e
    case Reconfigure(_, _) => true
    case Poll(i) => i < |s.writers| && s.writers[i].AtTop? && (s.client.Some? ==> s.config.Some?)
    case Finish(i) => i < |s.writers| && s.writers[i].Busy?
  }

  function Next(s: State, e: Event): State
    requires Enabled(s, e)
  {
    match e
    case Reconfigure(newConfig, buildOk) => Reconfigured(s, newConfig, buildOk)
    case Poll(i) => Polled(s, i)
    case Finish(i) => s.(writers := s.writers[i := AtTop])
  }

  predicate Usable(config: Receiver)
  {
    config.url != "" && config.timeoutSeconds != 0 && config.requestNumSamples != 0
  }

  /** There is one live writer while isRunning and none otherwise; the client is the one the
      current configuration asks for, which is then usable and has a writer to use it; and a busy
      writer holds a client and a sample count of one and the same usable configuration. */
  predicate Inv(s: State)
  {
    && |s.writers| == (if s.isRunning then 1 else 0)
    && s.client == (if Disabled(s.config) then None else s.config)
    && (s.client.Some? ==> s.isRunning && Usable(s.client.value))
    && (forall w :: w in s.writers && w.Busy? ==>
          Usable(w.client) && w.requestNumSamples == w.client.requestNumSamples)
  }

  ghost predicate IsRun(states: seq<State>, events: seq<Event>)
  {
    && |states| == |events| + 1
    && states[0] == INITIAL
    && forall i :: 0 <= i < |events| ==> Enabled(states[i], events[i]) && states[i + 1] == Next(states[i], events[i])
  }

  lemma StepKeepsInv(s: State, e: Event)
    requires Inv(s) && Enabled(s, e)
    ensures Inv(Next(s, e))
  {
    var t := Next(s, e);
    forall w | w in t.writers && w.Busy?
      ensures Usable(w.client) && w.requestNumSamples == w.client.requestNumSamples
    {
      if w !in s.writers {
        assert e.Poll? && w == Busy(s.client.value, s.config.value.requestNumSamples);
      }
    }
  }

  /** At most one writer, whatever the interleaving of updates and writer steps. */
  lemma {:induction false} AtMostOneWriter(states: seq<State>, events: seq<Event>, i: nat)
    requires IsRun(states, events) && i <= |events|
    ensures Inv(states[i])
  {
    if i > 0 {
      AtMostOneWriter(states, events, i - 1);
      StepKeepsInv(states[i - 1], events[i - 1]);
    }
  }

  /** The pair a busy writer uses was the configuration of some earlier accepted update. */
  lemma {:induction false} BusyUsesAnAcceptedConfig(states: seq<State>, events: seq<Event>, i: nat)
    requires IsRun(states, events) && i <= |events|
    ensures forall c :: states[i].client == Some(c) ==> WasAccepted(events, i, c)
    ensures forall w :: w in states[i].writers && w.Busy? ==> WasAccepted(events, i, w.client)
  {
    if i > 0 {
      BusyUsesAnAcceptedConfig(states, events, i - 1);
      var s, t := states[i - 1], states[i];
      forall c | WasAccepted(events, i - 1, c)
        ensures WasAccepted(events, i, c)
      {
        var j :| 0 <= j < i - 1 && events[j] == Reconfigure(Some(c), true);
      }
      forall w | w in t.writers && w.Busy?
        ensures WasAccepted(events, i, w.client)
      {
        if w !in s.writers {
          assert events[i - 1].Poll? && s.client == Some(w.client);
        }
      }
      if t.client.Some? && t.client != s.client {
        assert events[i - 1] == Reconfigure(Some(t.client.value), true);
      }
    }
  }

  ghost predicate WasAccepted(events: seq<Event>, i: nat, c: Receiver)
    requires i <= |events|
  {
    exists j :: 0 <= j < i && events[j] == Reconfigure(Some(c), true)
  }

  /** Whatever happened before, an update is taken exactly when its configuration is in force already,
      or asks for no writer, or a client can be built for it and its timeout and sample count are not
      zero. One that is taken decides the client, which has its writer; one that is not changes
      nothing. */
  lemma UpdateTakesEffect(states: seq<State>, events: seq<Event>, i: nat)
    requires IsRun(states, events) && i < |events| && events[i].Reconfigure?
    ensures var c, s, t := events[i].newConfig, states[i], states[i + 1];
            && (t.config == c <==>
                || c == s.config
                || c.None? || c.value.url == ""
                || (events[i].buildOk && c.value.timeoutSeconds != 0 && c.value.requestNumSamples != 0))
            && (t.config == c ==>
                && t.client == (if c.None? || c.value.url == "" then None else c)
                && (t.client.Some? ==> |t.writers| == 1))
            && (t.config != c ==> t == s)
  {
    AtMostOneWriter(states, events, i);
    AtMostOneWriter(states, events, i + 1);
  }

  /** A writer at the top of its loop goes on with exactly the configuration in force, or ends when
      that asks for none; one that has written is at the top again. */
  lemma WriterFollowsConfig(states: seq<State>, events: seq<Event>, i: nat)
    requires IsRun(states, events) && i < |events| && !events[i].Reconfigure?
    ensures var s, t := states[i], states[i + 1];
            if events[i].Finish? then t == s.(writers := [AtTop])
            else if s.config.None? || s.config.value.url == "" then t == State(s.config, None, false, [])
            else t == s.(writers := [Busy(s.config.value, s.config.value.requestNumSamples)])
  {
    AtMostOneWriter(states, events, i);
  }

  /** In every reachable state a writer writes with the sample count of an accepted configuration,
      which is not zero. */
  lemma BusyCountIsNotZero(states: seq<State>, events: seq<Event>, i: nat)
    requires IsRun(states, events) && i <= |events|
    ensures forall w :: w in states[i].writers && w.Busy? ==>
              w.requestNumSamples != 0 && w.requestNumSamples == w.client.requestNumSamples
              && WasAccepted(events, i, w.client)
  {
    AtMostOneWriter(states, events, i);
    BusyUsesAnAcceptedConfig(states, events, i);
  }

  /** But any other count, also a negative one, reaches a writer. */
  lemma AnyOtherCountReachesAWriter(n: int)
    ensures n != 0 <==>
            exists states: seq<State>, events, c :: IsRun(states, events) && states[|events|].writers == [Busy(c, n)]
  {
    if n != 0 {
      var c := Receiver("http://receiver", 10, n, "");
      var started := Reconfigured(INITIAL, Some(c), true);
      var states := [INITIAL, started, Polled(started, 0)];
      var events := [Reconfigure(Some(c), true), Poll(0)];
      assert IsRun(states, events) && states[|events|].writers == [Busy(c, n)];
    } else {
      forall states: seq<State>, events, c | IsRun(states, events)
        ensures states[|events|].writers != [Busy(c, 0)]
      {
        BusyCountIsNotZero(states, events, |events|);
        assert Busy(c, 0) in [Busy(c, 0)];
      }
    }
  }
}
