/** The batching loop of the remote writer in terms of the requests it has to send: one iteration
    takes samples of one series and then goes on, sends a full request, or sends the last one. */
module Batching {
  import opened TimeSeries

  /** The batching loop at sample k of series i: the request under construction holds the numSamples
      samples from position start on, and the requests sent so far carry those before it. */
  ghost predicate InBatch(series: seq<Series>, n: nat, i: nat, k: nat, start: nat, numSamples: nat,
                           request: Request, sent: seq<Request>)
    requires n > 0
  {
    && IsPosition(series, i, k, start + numSamples)
    && request == Cut(series, start, start + numSamples)
    && start % n == 0
    && Requests(series, n) == sent + RequestsFrom(series, start, n)
  }

  lemma StartOfRange(series: seq<Series>, n: nat)
    requires n > 0
    ensures series != [] ==> InBatch(series, n, 0, 0, 0, 0, [], [])
    ensures series == [] ==> Requests(series, n) == []
  {
    CutBeyond(series, |series|, 0, 0);
  }

  lemma PositionInSeries(series: seq<Series>, n: nat, i: nat, k: nat, start: nat, numSamples: nat,
                         request: Request, sent: seq<Request>)
    requires n > 0 && InBatch(series, n, i, k, start, numSamples, request, sent)
    ensures i < |series| && (k < |series[i].points| || k == |series[i].points| == 0)
  {
  }

  /** With a negative count the loop has passed nothing but empty series. */
  ghost predicate PassedNothing(series: seq<Series>, n: int, i: nat)
    requires i <= |series|
  {
    n < 0 ==> Offset(series, i) == 0
  }

  lemma PassesEmpty(series: seq<Series>, n: int, i: nat)
    ensures PassedNothing(series, n, 0)
    ensures i < |series| && PassedNothing(series, n, i) && (n > 0 || series[i].points == []) ==>
              PassedNothing(series, n, i + 1)
    ensures i == |series| && PassedNothing(series, n, i) && n != 0 ==> Sendable(series, n)
  {
  }

  /** The first series with samples cannot be sliced by a negative count. */
  lemma SliceOutOfRange(series: seq<Series>, n: int, i: nat)
    requires n < 0 && i < |series| && series[i].points != []
    ensures !Sendable(series, n)
  {
    OffsetMonotone(series, i + 1, |series|);
  }

  lemma EffectiveCount(n: int)
    ensures Effective(n) > 0 && (n > 0 ==> Effective(n) == n) && (n < 0 ==> Effective(n) == 1)
  {
  }

  lemma RangeSendable(series: seq<Series>, n: int, i: nat)
    requires n != 0 && i <= |series| && PassedNothing(series, n, i) && (i == |series| || n > 0)
    ensures Sendable(series, n) && Due(series, n) == Requests(series, Effective(n))
  {
  }

  /** The m samples an iteration takes from sample k on: as many as fit and as there are. */
  ghost predicate Takes(s: Series, n: nat, k: nat, numSamples: nat, m: nat)
  {
    && numSamples + m <= n && k + m <= |s.points|
    && (numSamples + m == n || k + m == |s.points|)
  }

  ghost function Taken(request: Request, s: Series, k: nat, m: nat): Request
    requires k + m <= |s.points|
  {
    if m == 0 then request else Grow(request, s, k, m)
  }

  lemma TakenByLoop(request: Request, s: Series, n: nat, k: nat, numSamples: nat, m: nat)
    requires k + m <= |s.points| && numSamples + m <= n
    requires numSamples + m == n || k + m == |s.points|
    ensures Takes(s, n, k, numSamples, m)
    ensures Taken(request, s, k, m) == if m == 0 then request else Grow(request, s, k, m)
  {
  }

  lemma TakenIsCut(series: seq<Series>, n: nat, i: nat, k: nat, start: nat, numSamples: nat, m: nat,
                   request: Request, sent: seq<Request>)
    requires n > 0 && InBatch(series, n, i, k, start, numSamples, request, sent)
    requires Takes(series[i], n, k, numSamples, m)
    ensures Taken(request, series[i], k, m) == Cut(series, start, start + numSamples + m)
  {
    if m > 0 {
      GrowIsCut(series, i, k, m, start, start + numSamples);
    }
  }

  /** Where the position stands once the samples are taken. */
  lemma PositionAfter(series: seq<Series>, i: nat, k: nat, p: nat, m: nat)
    requires IsPosition(series, i, k, p) && k + m <= |series[i].points|
    ensures p + m <= Total(series)
    ensures k + m < |series[i].points| ==> IsPosition(series, i, k + m, p + m)
    ensures k + m == |series[i].points| && i + 1 < |series| ==> IsPosition(series, i + 1, 0, p + m)
    ensures k + m == |series[i].points| && i + 1 == |series| ==> p + m == Total(series)
  {
    assert Offset(series, i + 1) == Offset(series, i) + |series[i].points|;
    OffsetMonotone(series, i + 1, |series|);
  }

  /** The request is not full and series are left: the loop goes on with the same request. */
  lemma GoesOn(series: seq<Series>, n: nat, i: nat, k: nat, start: nat, numSamples: nat, m: nat,
               request: Request, sent: seq<Request>)
    requires n > 0 && InBatch(series, n, i, k, start, numSamples, request, sent)
    requires Takes(series[i], n, k, numSamples, m) && numSamples + m < n && i + 1 < |series|
    ensures InBatch(series, n, i + 1, 0, start, numSamples + m, Taken(request, series[i], k, m), sent)
  {
    hide Cut, Requests, RequestsFrom, Taken;
    TakenIsCut(series, n, i, k, start, numSamples, m, request, sent);
    PositionAfter(series, i, k, start + numSamples, m);
  }

  /** The request is full: it is the next one due, and the loop goes on with an empty one, in the
      same series or the next, unless that was the last. */
  lemma SendsFull(series: seq<Series>, n: nat, i: nat, k: nat, start: nat, numSamples: nat, m: nat,
                  request: Request, sent: seq<Request>, j: nat, k': nat)
    requires n > 0 && InBatch(series, n, i, k, start, numSamples, request, sent)
    requires Takes(series[i], n, k, numSamples, m) && numSamples + m == n
    requires if k + m == |series[i].points| then j == i + 1 && k' == 0 else j == i && k' == k + m
    requires j < |series|
    ensures InBatch(series, n, j, k', start + n, 0, [], sent + [Taken(request, series[i], k, m)])
  {
    hide Cut, Requests, RequestsFrom, Taken;
    TakenIsCut(series, n, i, k, start, numSamples, m, request, sent);
    PositionAfter(series, i, k, start + numSamples, m);
    FullRequest(series, start, n);
    Regroup(sent, [Cut(series, start, start + n)], RequestsFrom(series, start + n, n));
    DivStep(start, n);
    EmptyCut(series, start + n);
  }

  lemma EmptyCut(series: seq<Series>, a: nat)
    ensures Cut(series, a, a) == []
  {
    CutBeyond(series, |series|, a, a);
  }

  /** No series are left: the request is the last one due. */
  lemma SendsLast(series: seq<Series>, n: nat, i: nat, k: nat, start: nat, numSamples: nat, m: nat,
                  request: Request, sent: seq<Request>)
    requires n > 0 && InBatch(series, n, i, k, start, numSamples, request, sent) && numSamples < n
    requires Takes(series[i], n, k, numSamples, m) && i + 1 == |series| && k + m == |series[i].points|
    ensures Requests(series, n) == sent + [Taken(request, series[i], k, m)]
  {
    hide Cut, Requests, RequestsFrom, Taken;
    TakenIsCut(series, n, i, k, start, numSamples, m, request, sent);
    PositionAfter(series, i, k, start + numSamples, m);
    LastRequest(series, start, n);
  }

  /** While it is under construction, the request is followed by the rest of those due. */
  lemma NextIsDue(series: seq<Series>, n: nat, i: nat, k: nat, start: nat, numSamples: nat, m: nat,
                  request: Request, sent: seq<Request>) returns (rest: seq<Request>)
    requires n > 0 && InBatch(series, n, i, k, start, numSamples, request, sent) && numSamples < n
    requires Takes(series[i], n, k, numSamples, m)
    requires numSamples + m == n || i + 1 == |series|
    ensures Requests(series, n) == sent + [Taken(request, series[i], k, m)] + rest
  {
    hide Cut, Requests, RequestsFrom, Taken;
    TakenIsCut(series, n, i, k, start, numSamples, m, request, sent);
    PositionAfter(series, i, k, start + numSamples, m);
    if i + 1 == |series| && k + m == |series[i].points| {
      SendsLast(series, n, i, k, start, numSamples, m, request, sent);
      rest := [];
    } else {
      FullRequest(series, start, n);
      rest := RequestsFrom(series, start + n, n);
      Regroup(sent, [Cut(series, start, start + n)], rest);
    }
  }
}
