/** The remote receiver, the retrying of one write request, and what a list of requests leaves
    behind at the receiver. */
module Delivery {
  import opened TimeSeries

  /** Receiver configuration of the metrics remote writer. */
  datatype Receiver = Receiver(url: string, timeoutSeconds: int, requestNumSamples: int, caCert: string)

  datatype Outcome = Accepted | Recoverable | Fatal

  datatype Attempt = Attempt(request: Request, outcome: Outcome)

  const NUM_TRIES := 3

  /** A client built from one configuration. The receiver may answer every call as it likes. */
  class WriteClient {
    const config: Receiver
    var log: seq<Attempt>

    constructor (config: Receiver)
      ensures this.config == config && log == []
    {
      this.config := config;
      log := [];
    }

    method Write(request: Request) returns (outcome: Outcome)
      modifies this
      ensures log == old(log) + [Attempt(request, outcome)]
    {
      outcome := *;
      log := log + [Attempt(request, outcome)];
    }
  }

  // ---------- One request ----------

  /** A legitimate series of attempts for one request: it is repeated only after a recoverable
      error, at most three times, and given up exactly after three recoverable errors or, without
      an attempt, when it cannot be encoded. */
  ghost predicate IsTry(tries: seq<Attempt>, request: Request, done: bool)
  {
    && |tries| <= NUM_TRIES
    && (forall k :: 0 <= k < |tries| ==> tries[k].request == request)
    && (forall k :: 0 <= k < |tries| - 1 ==> tries[k].outcome == Recoverable)
    && (done <==> tries != [] && tries[|tries| - 1].outcome != Recoverable)
    && (!done ==> |tries| == NUM_TRIES || tries == [])
  }

  /** Attempts for a list of requests, grouped by request. All groups but the last are done. */
  ghost predicate IsDelivery(groups: seq<seq<Attempt>>, requests: seq<Request>, done: bool)
  {
    && |groups| <= |requests|
    && (done ==> |groups| == |requests|)
    && (!done ==> groups != [])
    && forall g :: 0 <= g < |groups| ==> IsTry(groups[g], requests[g], done || g < |groups| - 1)
  }

  function Concat(groups: seq<seq<Attempt>>): seq<Attempt>
  {
    if groups == [] then [] else Concat(groups[..|groups| - 1]) + groups[|groups| - 1]
  }

  lemma ConcatSnoc(groups: seq<seq<Attempt>>, group: seq<Attempt>)
    ensures Concat(groups + [group]) == Concat(groups) + group
  {
    assert (groups + [group])[..|groups|] == groups;
  }

  lemma DeliverySnoc(groups: seq<seq<Attempt>>, requests: seq<Request>, group: seq<Attempt>, request: Request,
                     done: bool)
    requires IsDelivery(groups, requests, true) && IsTry(group, request, done)
    ensures IsDelivery(groups + [group], requests + [request], done)
    ensures Concat(groups + [group]) == Concat(groups) + group
  {
    ConcatSnoc(groups, group);
  }

  lemma NothingDelivered(log: seq<Attempt>)
    ensures log + Concat([]) == log && IsDelivery([], [], true)
  {
  }

  lemma DeliveryStops(groups: seq<seq<Attempt>>, requests: seq<Request>, rest: seq<Request>)
    requires IsDelivery(groups, requests, false)
    ensures IsDelivery(groups, requests + rest, false)
  {
  }

  // ---------- What the receiver has settled ----------

  /** Samples of the requests that were accepted or refused for good, in order. */
  function SettledSamples(log: seq<Attempt>): seq<Sample>
  {
    if log == [] then []
    else
      SettledSamples(log[..|log| - 1]) +
      (if log[|log| - 1].outcome == Recoverable then [] else Flatten(log[|log| - 1].request))
  }

  ghost predicate Settled(log: seq<Attempt>, sample: Sample)
  {
    exists k :: 0 <= k < |log| && log[k].outcome != Recoverable && sample in Flatten(log[k].request)
  }

  lemma {:induction false} SettledAppend(x: seq<Attempt>, y: seq<Attempt>)
    ensures SettledSamples(x + y) == SettledSamples(x) + SettledSamples(y)
  {
    if y == [] {
      assert x + y == x;
    } else {
      var front, last := y[..|y| - 1], y[|y| - 1];
      SettledAppend(x, front);
      assert (x + y)[..|x + y| - 1] == x + front && (x + y)[|x + y| - 1] == last;
      Regroup(SettledSamples(x), SettledSamples(front),
              if last.outcome == Recoverable then [] else Flatten(last.request));
    }
  }

  lemma {:induction false} SettledSamplesAreSettled(log: seq<Attempt>, sample: Sample)
    requires sample in SettledSamples(log)
    ensures Settled(log, sample)
  {
    var last := log[|log| - 1];
    if last.outcome != Recoverable && sample in Flatten(last.request) {
      assert log[|log| - 1].outcome != Recoverable;
    } else {
      SettledSamplesAreSettled(log[..|log| - 1], sample);
      var k :| 0 <= k < |log| - 1 && log[..|log| - 1][k].outcome != Recoverable &&
               sample in Flatten(log[..|log| - 1][k].request);
      assert log[k] == log[..|log| - 1][k];
    }
  }

  lemma SettledStays(x: seq<Attempt>, y: seq<Attempt>, sample: Sample)
    requires Settled(x, sample)
    ensures Settled(x + y, sample)
  {
    var k :| 0 <= k < |x| && x[k].outcome != Recoverable && sample in Flatten(x[k].request);
    assert (x + y)[k] == x[k];
  }

  lemma {:induction false} RecoverableSettleNothing(tries: seq<Attempt>)
    requires forall k :: 0 <= k < |tries| ==> tries[k].outcome == Recoverable
    ensures SettledSamples(tries) == []
  {
    if tries != [] {
      RecoverableSettleNothing(tries[..|tries| - 1]);
    }
  }

  lemma TrySettles(tries: seq<Attempt>, request: Request, done: bool)
    requires IsTry(tries, request, done)
    ensures SettledSamples(tries) == if done then Flatten(request) else []
  {
    if tries != [] {
      RecoverableSettleNothing(tries[..|tries| - 1]);
    }
  }

  /** Each request that is not given up reaches the receiver exactly once; the request that is
      given up, and those after it, not at all. */
  lemma {:induction false} DeliverySettles(groups: seq<seq<Attempt>>, requests: seq<Request>, done: bool)
    requires IsDelivery(groups, requests, done)
    ensures SettledSamples(Concat(groups)) ==
            FlattenAll(if done then requests else requests[..|groups| - 1])
    decreases |groups|
  {
    if groups != [] {
      var g := |groups| - 1;
      var front, last := groups[..g], groups[g];
      assert IsDelivery(front, requests[..g], true);
      DeliverySettles(front, requests[..g], true);
      SettledAppend(Concat(front), last);
      TrySettles(last, requests[g], done);
      if done {
        assert requests[..|requests| - 1] == requests[..g];
      }
    }
  }

  /** The attempts of a request that is given up: three recoverable errors in a row, or none at all,
      because the request cannot be encoded. */
  ghost predicate GivenUp(tries: seq<Attempt>)
  {
    tries == [] || (|tries| == 3 && forall k :: 0 <= k < 3 ==> tries[k].outcome == Recoverable)
  }

  /** The delivery of a list of requests stops early exactly when one request got three
      recoverable errors in a row or could not be encoded; the requests tried are then a proper
      prefix ending with it. Any other request is tried until it is accepted or refused for good,
      which takes at most three attempts. */
  lemma GivesUpExactlyOnExhaustion(groups: seq<seq<Attempt>>, requests: seq<Request>, done: bool)
    requires IsDelivery(groups, requests, done)
    ensures !done <==> exists g :: 0 <= g < |groups| && GivenUp(groups[g])
    ensures forall g :: 0 <= g < |groups| && GivenUp(groups[g]) ==> g == |groups| - 1
    ensures forall g :: 0 <= g < |groups| ==>
              |groups[g]| <= 3 && forall k :: 0 <= k < |groups[g]| ==> groups[g][k].request == requests[g]
    ensures forall g :: 0 <= g < |groups| && !GivenUp(groups[g]) ==>
              && groups[g] != [] && groups[g][|groups[g]| - 1].outcome in {Accepted, Fatal}
              && forall k :: 0 <= k < |groups[g]| - 1 ==> groups[g][k].outcome == Recoverable
  {
    if !done {
      assert IsTry(groups[|groups| - 1], requests[|groups| - 1], false);
      assert GivenUp(groups[|groups| - 1]);
    }
  }
}
