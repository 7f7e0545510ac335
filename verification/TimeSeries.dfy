/** Series of samples as the metrics store returns them, and the cutting of a list of
    series into write requests of a fixed number of samples. */
module TimeSeries {
  datatype DataPoint = DataPoint(time: int, value: real)

  type Labels = map<string, string>

  datatype Series = Series(labels: Labels, points: seq<DataPoint>)

  /** One data point together with the labels of the series it belongs to. */
  datatype Sample = Sample(labels: Labels, point: DataPoint)

  type Request = seq<Series>

  function Label(labels: Labels, points: seq<DataPoint>): (samples: seq<Sample>)
    ensures |samples| == |points|
  {
    seq(|points|, i requires 0 <= i < |points| => Sample(labels, points[i]))
  }

  /** Number of samples in the first i series. */
  function Offset(series: seq<Series>, i: nat): nat
    requires i <= |series|
  {
    if i == 0 then 0 else Offset(series, i - 1) + |series[i - 1].points|
  }

  function Total(series: seq<Series>): nat { Offset(series, |series|) }

  function FlattenFirst(series: seq<Series>, i: nat): (samples: seq<Sample>)
    requires i <= |series|
    ensures |samples| == Offset(series, i)
  {
    if i == 0 then [] else FlattenFirst(series, i - 1) + Label(series[i - 1].labels, series[i - 1].points)
  }

  /** All samples of a list of series, in order, each under its own labels. */
  function Flatten(series: seq<Series>): seq<Sample> { FlattenFirst(series, |series|) }

  function FlattenAll(requests: seq<Request>): seq<Sample>
  {
    if requests == [] then []
    else FlattenAll(requests[..|requests| - 1]) + Flatten(requests[|requests| - 1])
  }

  function Clip(x: int, n: nat): nat
  {
    if x < 0 then 0 else if x > n then n else x
  }

  function Slice<T>(s: seq<T>, a: int, b: int): seq<T>
    requires a <= b
  {
    s[Clip(a, |s|)..Clip(b, |s|)]
  }

  /** The part of one series between two of its own positions; no series at all when empty. */
  function Piece(s: Series, a: int, b: int): seq<Series>
    requires a <= b
  {
    var lo, hi := Clip(a, |s.points|), Clip(b, |s.points|);
    if lo < hi then [Series(s.labels, s.points[lo..hi])] else []
  }

  function CutFirst(series: seq<Series>, i: nat, a: nat, b: nat): Request
    requires i <= |series| && a <= b
  {
    if i == 0 then []
    else
      var offset := Offset(series, i - 1);
      CutFirst(series, i - 1, a, b) + Piece(series[i - 1], a - offset, b - offset)
  }

  /** The samples at positions a..b of the flattened list, regrouped by the series they come from. */
  function Cut(series: seq<Series>, a: nat, b: nat): Request
    requires a <= b
  {
    CutFirst(series, |series|, a, b)
  }

  /** Position in the series list of every entry of a cut. */
  ghost function SourcesFirst(series: seq<Series>, i: nat, a: nat, b: nat): seq<nat>
    requires i <= |series| && a <= b
  {
    if i == 0 then []
    else
      var offset := Offset(series, i - 1);
      SourcesFirst(series, i - 1, a, b) +
      (if Piece(series[i - 1], a - offset, b - offset) != [] then [i - 1] else [])
  }

  ghost function Sources(series: seq<Series>, a: nat, b: nat): seq<nat>
    requires a <= b
  {
    SourcesFirst(series, |series|, a, b)
  }

  function Min(x: int, y: int): int { if x < y then x else y }

  /** The requests that carry the samples from position a on, n at a time. */
  function ChunksFrom(series: seq<Series>, a: nat, n: nat): seq<Request>
    requires n > 0
    decreases Total(series) - a
  {
    if a >= Total(series) then []
    else [Cut(series, a, Min(a + n, Total(series)))] + ChunksFrom(series, a + n, n)
  }

  /** A list that ends with an empty series after a full request costs one more, empty, request. */
  function Trailing(series: seq<Series>, n: nat): seq<Request>
    requires n > 0
  {
    if series != [] && series[|series| - 1].points == [] && Total(series) % n == 0 then [[]] else []
  }

  /** The write requests for a list of series, n samples in each, from position a on. */
  function RequestsFrom(series: seq<Series>, a: nat, n: nat): seq<Request>
    requires n > 0
  {
    ChunksFrom(series, a, n) + Trailing(series, n)
  }

  function Requests(series: seq<Series>, n: nat): seq<Request>
    requires n > 0
  {
    RequestsFrom(series, 0, n)
  }

  /** The batching loop gets through a list: the count is positive, or there is no sample to slice. */
  predicate Sendable(series: seq<Series>, n: int) { n > 0 || Total(series) == 0 }

  /** The count the requests are cut by; for a list without samples any count will do. */
  function Effective(n: int): nat { if n > 0 then n else 1 }

  /** The write requests due for a list the batching loop gets through. */
  function Due(series: seq<Series>, n: int): seq<Request>
    requires Sendable(series, n)
  {
    Requests(series, Effective(n))
  }

  // ---------- Flattening ----------

  lemma {:induction false} OffsetMonotone(series: seq<Series>, i: nat, j: nat)
    requires i <= j <= |series|
    ensures Offset(series, i) <= Offset(series, j)
  {
    if i < j {
      OffsetMonotone(series, i, j - 1);
    }
  }

  lemma {:induction false} FlattenFirstLeft(x: seq<Series>, y: seq<Series>, i: nat)
    requires i <= |x|
    ensures FlattenFirst(x + y, i) == FlattenFirst(x, i)
  {
    if i > 0 {
      FlattenFirstLeft(x, y, i - 1);
    }
  }

  lemma {:induction false} FlattenFirstAppend(x: seq<Series>, y: seq<Series>, i: nat)
    requires i <= |y|
    ensures FlattenFirst(x + y, |x| + i) == Flatten(x) + FlattenFirst(y, i)
  {
    if i == 0 {
      FlattenFirstLeft(x, y, |x|);
    } else {
      var last := Label(y[i - 1].labels, y[i - 1].points);
      assert (x + y)[|x| + i - 1] == y[i - 1];
      calc {
        FlattenFirst(x + y, |x| + i);
        FlattenFirst(x + y, |x| + i - 1) + last;
        { FlattenFirstAppend(x, y, i - 1); }
        (Flatten(x) + FlattenFirst(y, i - 1)) + last;
        { Regroup(Flatten(x), FlattenFirst(y, i - 1), last); }
        Flatten(x) + (FlattenFirst(y, i - 1) + last);
        Flatten(x) + FlattenFirst(y, i);
      }
    }
  }

  lemma FlattenAppend(x: seq<Series>, y: seq<Series>)
    ensures Flatten(x + y) == Flatten(x) + Flatten(y)
  {
    FlattenFirstAppend(x, y, |y|);
  }

  lemma Regroup<T>(a: seq<T>, b: seq<T>, c: seq<T>)
    ensures (a + b) + c == a + (b + c)
  {
  }

  lemma {:induction false} FlattenAllAppend(x: seq<Request>, y: seq<Request>)
    ensures FlattenAll(x + y) == FlattenAll(x) + FlattenAll(y)
  {
    if y == [] {
      assert x + y == x;
    } else {
      var front, last := y[..|y| - 1], y[|y| - 1];
      FlattenAllAppend(x, front);
      assert (x + y)[..|x + y| - 1] == x + front && (x + y)[|x + y| - 1] == last;
      Regroup(FlattenAll(x), FlattenAll(front), Flatten(last));
    }
  }

  lemma PieceFlatten(s: Series, a: int, b: int)
    requires a <= b
    ensures Flatten(Piece(s, a, b)) == Slice(Label(s.labels, s.points), a, b)
  {
    var lo, hi := Clip(a, |s.points|), Clip(b, |s.points|);
    if lo < hi {
      var p := Series(s.labels, s.points[lo..hi]);
      assert FlattenFirst([p], 1) == FlattenFirst([p], 0) + Label(p.labels, p.points);
    }
  }

  lemma {:induction false} CutFirstFlatten(series: seq<Series>, i: nat, a: nat, b: nat)
    requires i <= |series| && a <= b
    ensures Flatten(CutFirst(series, i, a, b)) == Slice(FlattenFirst(series, i), a, b)
  {
    hide Flatten, Slice, Piece, Label;
    if i == 0 {
      NothingToFlatten(a, b);
    } else {
      var offset, s := Offset(series, i - 1), series[i - 1];
      CutFirstFlatten(series, i - 1, a, b);
      PieceFlatten(s, a - offset, b - offset);
      AppendSlices(CutFirst(series, i - 1, a, b), Piece(s, a - offset, b - offset),
                   FlattenFirst(series, i - 1), Label(s.labels, s.points), a, b);
    }
  }

  lemma NothingToFlatten(a: nat, b: nat)
    requires a <= b
    ensures Flatten([]) == Slice([], a, b)
  {
  }

  lemma AppendSlices(before: Request, piece: Request, first: seq<Sample>, next: seq<Sample>, a: nat, b: nat)
    requires a <= b
    requires Flatten(before) == Slice(first, a, b)
    requires Flatten(piece) == Slice(next, a - |first|, b - |first|)
    ensures Flatten(before + piece) == Slice(first + next, a, b)
  {
    FlattenAppend(before, piece);
    SliceConcat(first, next, a, b);
  }

  lemma SliceConcat<T>(x: seq<T>, y: seq<T>, a: nat, b: nat)
    requires a <= b
    ensures Slice(x + y, a, b) == Slice(x, a, b) + Slice(y, a - |x|, b - |x|)
  {
    var hi := Clip(b - |x|, |y|);
    if b <= |x| {
      SliceLeft(x, y, a, b);
    } else if |x| <= a {
      SliceRight(x, y, Clip(a - |x|, |y|), hi);
    } else {
      SliceAcross(x, y, a, hi);
    }
  }

  lemma SliceLeft<T>(x: seq<T>, y: seq<T>, a: nat, b: nat)
    requires a <= b <= |x|
    ensures (x + y)[a..b] == x[a..b] + y[0..0]
  {
  }

  lemma SliceRight<T>(x: seq<T>, y: seq<T>, lo: nat, hi: nat)
    requires lo <= hi <= |y|
    ensures (x + y)[|x| + lo..|x| + hi] == x[|x|..|x|] + y[lo..hi]
  {
  }

  lemma SliceAcross<T>(x: seq<T>, y: seq<T>, a: nat, hi: nat)
    requires a <= |x| && hi <= |y|
    ensures (x + y)[a..|x| + hi] == x[a..|x|] + y[0..hi]
  {
  }

  /** Cutting and flattening again gives exactly the samples between the two positions. */
  lemma CutFlatten(series: seq<Series>, a: nat, b: nat)
    requires a <= b <= Total(series)
    ensures Flatten(Cut(series, a, b)) == Flatten(series)[a..b]
  {
    CutFirstFlatten(series, |series|, a, b);
  }

  ghost predicate IsRunOf(run: seq<DataPoint>, points: seq<DataPoint>)
  {
    run != [] && exists lo, hi :: 0 <= lo <= hi <= |points| && run == points[lo..hi]
  }

  /** The entries of a request come from the series at the given positions, each position is
      used at most once and in list order, and each entry is a non-empty run of consecutive
      points under its series' own labels. */
  ghost predicate ComesFrom(request: Request, sources: seq<nat>, series: seq<Series>)
  {
    && |sources| == |request|
    && (forall k :: 0 <= k < |sources| ==>
          && sources[k] < |series|
          && request[k].labels == series[sources[k]].labels
          && IsRunOf(request[k].points, series[sources[k]].points))
    && (forall j, k :: 0 <= j < k < |sources| ==> sources[j] < sources[k])
  }

  lemma {:induction false} CutFirstSources(series: seq<Series>, i: nat, a: nat, b: nat)
    requires i <= |series| && a <= b
    ensures ComesFrom(CutFirst(series, i, a, b), SourcesFirst(series, i, a, b), series)
    ensures Below(SourcesFirst(series, i, a, b), i)
  {
    hide ComesFrom, Piece, Below, Offset, Clip;
    if i == 0 {
      NoSources(series);
    } else {
      CutFirstSources(series, i - 1, a, b);
      var offset := Offset(series, i - 1);
      AddSource(CutFirst(series, i - 1, a, b), SourcesFirst(series, i - 1, a, b),
                CutFirst(series, i, a, b), SourcesFirst(series, i, a, b), series, i - 1, a - offset, b - offset);
    }
  }

  lemma NoSources(series: seq<Series>)
    ensures ComesFrom([], [], series) && Below([], 0)
  {
  }

  ghost predicate Below(sources: seq<nat>, i: nat)
  {
    forall k :: 0 <= k < |sources| ==> sources[k] < i
  }

  lemma AddSource(request: Request, sources: seq<nat>, request': Request, sources': seq<nat>,
                  series: seq<Series>, i: nat, a: int, b: int)
    requires i < |series| && a <= b
    requires ComesFrom(request, sources, series) && Below(sources, i)
    requires request' == request + Piece(series[i], a, b)
    requires sources' == sources + (if Piece(series[i], a, b) != [] then [i] else [])
    ensures ComesFrom(request', sources', series) && Below(sources', i + 1)
  {
    var points := series[i].points;
    var lo, hi := Clip(a, |points|), Clip(b, |points|);
    if lo < hi {
      assert IsRunOf(points[lo..hi], points);
    }
  }

  /** No request lists the same source series twice. */
  lemma CutSources(series: seq<Series>, a: nat, b: nat)
    requires a <= b
    ensures ComesFrom(Cut(series, a, b), Sources(series, a, b), series)
  {
    CutFirstSources(series, |series|, a, b);
  }

  // ---------- Growing a request ----------

  lemma {:induction false} CutBeyond(series: seq<Series>, i: nat, a: nat, b: nat)
    requires i <= |series| && a <= b
    requires Offset(series, i) <= a || a == b
    ensures CutFirst(series, i, a, b) == []
  {
    if i > 0 {
      CutBeyond(series, i - 1, a, b);
    }
  }

  lemma {:induction false} CutSaturates(series: seq<Series>, i: nat, a: nat, b: nat, c: nat)
    requires i <= |series| && a <= b <= c && Offset(series, i) <= b
    ensures CutFirst(series, i, a, b) == CutFirst(series, i, a, c)
  {
    if i > 0 {
      CutSaturates(series, i - 1, a, b, c);
    }
  }

  lemma {:induction false} CutPrefix(series: seq<Series>, i: nat, j: nat, a: nat, b: nat)
    requires i <= j <= |series| && a <= b <= Offset(series, i)
    ensures CutFirst(series, i, a, b) == CutFirst(series, j, a, b)
    decreases j
  {
    if i < j {
      CutPrefix(series, i, j - 1, a, b);
      OffsetMonotone(series, i, j - 1);
    }
  }

  /** What the batching loop does to the request under construction when it takes m more
      points, from position k on, of the current series. */
  function Grow(request: Request, current: Series, k: nat, m: nat): (grown: Request)
    requires k + m <= |current.points|
  {
    var base := if k == 0 || request == [] then request + [Series(current.labels, [])] else request;
    var last := base[|base| - 1];
    base[|base| - 1 := last.(points := last.points + current.points[k..k + m])]
  }

  /** Growing the request in place keeps it equal to the regrouped run of samples. */
  lemma GrowIsCut(series: seq<Series>, i: nat, k: nat, m: nat, a: nat, p: nat)
    requires i < |series| && m > 0 && k + m <= |series[i].points|
    requires p == Offset(series, i) + k && a <= p
    ensures Grow(Cut(series, a, p), series[i], k, m) == Cut(series, a, p + m)
  {
    hide *;
    var before := CutFirst(series, i, a, p);
    CutSplit(series, i, a, p, p);
    CutSplit(series, i, a, p, p + m);
    NothingBefore(series, i, a, p);
    GrowPiece(before, Cut(series, a, p), Cut(series, a, p + m), series[i], k, m, a - Offset(series, i));
  }

  lemma NothingBefore(series: seq<Series>, i: nat, a: nat, b: nat)
    requires i <= |series| && a <= b
    ensures a >= Offset(series, i) ==> CutFirst(series, i, a, b) == []
  {
    if a >= Offset(series, i) {
      CutBeyond(series, i, a, b);
    }
  }

  lemma CutSplit(series: seq<Series>, i: nat, a: nat, p: nat, q: nat)
    requires i < |series| && a <= p
    requires Offset(series, i) <= p <= q <= Offset(series, i) + |series[i].points|
    ensures Cut(series, a, q) ==
            CutFirst(series, i, a, p) + Piece(series[i], a - Offset(series, i), q - Offset(series, i))
  {
    hide Piece;
    CutPrefix(series, i + 1, |series|, a, q);
    CutSaturates(series, i, a, p, q);
  }

  lemma GrowPiece(before: Request, request: Request, grown: Request, s: Series, k: nat, m: nat, a: int)
    requires m > 0 && k + m <= |s.points| && a <= k
    requires a >= 0 ==> before == []
    requires request == before + Piece(s, a, k)
    requires grown == before + Piece(s, a, k + m)
    ensures Grow(request, s, k, m) == grown
  {
    var lo := Clip(a, |s.points|);
    SlicesJoin(s.points, lo, k, k + m);
    if k == 0 || request == [] {
      assert Piece(s, a, k) == [];
      assert request + [Series(s.labels, [])] == before + [Series(s.labels, [])];
    }
  }

  lemma SlicesJoin<T>(s: seq<T>, a: nat, b: nat, c: nat)
    requires a <= b <= c <= |s|
    ensures s[a..b] + s[b..c] == s[a..c]
  {
  }

  // ---------- Counting requests ----------

  lemma DivStep(x: nat, n: nat)
    requires n > 0
    ensures (x + n) / n == x / n + 1
    ensures (x + n) % n == x % n
  {
    var q, r := x / n, x % n;
    assert x + n == n * (q + 1) + r;
    Quotient(x + n, n, q + 1, r);
  }

  lemma Quotient(x: nat, n: nat, q: nat, r: nat)
    requires n > 0 && r < n && x == n * q + r
    ensures x / n == q && x % n == r
  {
    var d := x / n - q;
    assert n * (x / n) + x % n == x;
    assert n * d == r - x % n;
    assert 0 - n < n * d < n;
    Bounded(n, d);
  }

  lemma Bounded(n: nat, d: int)
    requires 0 - n < n * d < n
    ensures d == 0
  {
  }

  lemma Remainder(start: nat, rest: nat, n: nat)
    requires n > 0 && start % n == 0 && rest < n
    ensures (start + rest) % n == rest
  {
    Quotient(start + rest, n, start / n, rest);
  }

  // ---------- The requests for a list of series ----------

  lemma {:induction false} ChunksFlatten(series: seq<Series>, a: nat, n: nat)
    requires n > 0 && a <= Total(series)
    ensures FlattenAll(ChunksFrom(series, a, n)) == Flatten(series)[a..]
    decreases Total(series) - a
  {
    if a < Total(series) {
      var b := Min(a + n, Total(series));
      var first, rest := Cut(series, a, b), ChunksFrom(series, b, n);
      ChunkRest(series, a, n);
      FlattenAllAppend([first], rest);
      FlattenAllOne(first);
      CutFlatten(series, a, b);
      ChunksFlatten(series, b, n);
      SplitAt(Flatten(series), a, b);
    }
  }

  lemma SplitAt<T>(s: seq<T>, a: nat, b: nat)
    requires a <= b <= |s|
    ensures s[a..b] + s[b..] == s[a..]
  {
  }

  lemma FlattenAllOne(request: Request)
    ensures FlattenAll([request]) == Flatten(request)
  {
    assert [request][..0] == [];
    assert FlattenAll([request]) == FlattenAll([]) + Flatten(request);
  }

  /** Past the last sample there is nothing left to chunk, so the next chunk may be taken to
      start where the current one ends. */
  lemma ChunkRest(series: seq<Series>, a: nat, n: nat)
    requires n > 0 && a < Total(series)
    ensures var b := Min(a + n, Total(series));
            ChunksFrom(series, a, n) == [Cut(series, a, b)] + ChunksFrom(series, b, n)
  {
  }

  lemma {:induction false} ChunksCount(series: seq<Series>, a: nat, n: nat)
    requires n > 0 && a <= Total(series)
    ensures |ChunksFrom(series, a, n)| == (Total(series) - a + n - 1) / n
    decreases Total(series) - a
  {
    var t := Total(series);
    if a == t {
      Quotient(n - 1, n, 0, n - 1);
    } else {
      var b := Min(a + n, t);
      ChunkRest(series, a, n);
      ChunksCount(series, b, n);
      ChunkCount(t - a, b - a, n);
    }
  }

  lemma {:induction false} ChunksAreCuts(series: seq<Series>, a: nat, n: nat)
    requires n > 0 && a <= Total(series)
    ensures forall chunk :: chunk in ChunksFrom(series, a, n) ==> IsCutOf(chunk, series)
    decreases Total(series) - a
  {
    if a < Total(series) {
      var b := Min(a + n, Total(series));
      ChunkRest(series, a, n);
      ChunksAreCuts(series, b, n);
      assert IsCutOf(Cut(series, a, b), series);
    }
  }

  lemma {:induction false} ChunksSizes(series: seq<Series>, a: nat, n: nat, k: nat)
    requires n > 0 && a <= Total(series) && k < |ChunksFrom(series, a, n)|
    ensures |Flatten(ChunksFrom(series, a, n)[k])| <= n
    ensures k < |ChunksFrom(series, a, n)| - 1 || (Total(series) - a) % n == 0 ==>
              |Flatten(ChunksFrom(series, a, n)[k])| == n
    decreases Total(series) - a
  {
    var b := Min(a + n, Total(series));
    ChunkRest(series, a, n);
    if k == 0 {
      CutFlatten(series, a, b);
      if (Total(series) - a) % n == 0 {
        ChunkCount(Total(series) - a, b - a, n);
      }
    } else {
      ChunkCount(Total(series) - a, b - a, n);
      ChunksSizes(series, b, n, k - 1);
    }
  }

  ghost predicate IsCutOf(request: Request, series: seq<Series>)
  {
    exists a: nat, b: nat :: a <= b <= Total(series) && request == Cut(series, a, b)
  }

  lemma ChunkCount(left: nat, taken: nat, n: nat)
    requires n > 0 && left > 0 && taken == Min(n, left)
    ensures (left + n - 1) / n == 1 + (left - taken + n - 1) / n
    ensures left % n == 0 ==> taken == n && (left - taken) % n == 0
  {
    if left < n {
      Quotient(left + n - 1, n, 1, left - 1);
      Quotient(n - 1, n, 0, n - 1);
      Quotient(left, n, 0, left);
    } else {
      DivStep(left - n + n - 1, n);
      DivStep(left - n, n);
    }
  }

  /** The requests carry every sample exactly once, in order, under its own labels. */
  lemma RequestsFlatten(series: seq<Series>, n: nat)
    requires n > 0
    ensures FlattenAll(Requests(series, n)) == Flatten(series)
  {
    FlattenAllAppend(ChunksFrom(series, 0, n), Trailing(series, n));
    FlattenAllOne([]);
    ChunksFlatten(series, 0, n);
  }

  /** Every request but the last is full; every request is a regrouped run of the samples. */
  lemma RequestsShape(series: seq<Series>, n: nat, k: nat)
    requires n > 0 && k < |Requests(series, n)|
    ensures |Flatten(Requests(series, n)[k])| <= n
    ensures k < |Requests(series, n)| - 1 ==> |Flatten(Requests(series, n)[k])| == n
    ensures IsCutOf(Requests(series, n)[k], series)
  {
    ChunksAreCuts(series, 0, n);
    if k < |ChunksFrom(series, 0, n)| {
      ChunksSizes(series, 0, n, k);
    } else {
      CutBeyond(series, |series|, 0, 0);
      assert Cut(series, 0, 0) == [];
    }
  }

  /** T samples cost ceil(T / n) requests, and one empty request more exactly when n divides T
      and the last series of the list is empty. */
  lemma RequestsCount(series: seq<Series>, n: nat)
    requires n > 0 && series != []
    ensures |Requests(series, n)| ==
            (Total(series) + n - 1) / n +
            (if Total(series) % n == 0 && series[|series| - 1].points == [] then 1 else 0)
  {
    ChunksCount(series, 0, n);
  }

  // ---------- Sending a request ----------

  /** Position p of the flattened list is sample k of series i. */
  ghost predicate IsPosition(series: seq<Series>, i: nat, k: nat, p: nat)
  {
    && i < |series| && p == Offset(series, i) + k
    && (k < |series[i].points| || k == |series[i].points| == 0)
  }

  lemma FullRequest(series: seq<Series>, a: nat, n: nat)
    requires n > 0 && a + n <= Total(series)
    ensures RequestsFrom(series, a, n) == [Cut(series, a, a + n)] + RequestsFrom(series, a + n, n)
  {
    ChunkRest(series, a, n);
    Regroup([Cut(series, a, a + n)], ChunksFrom(series, a + n, n), Trailing(series, n));
  }

  lemma LastRequest(series: seq<Series>, a: nat, n: nat)
    requires n > 0 && series != [] && a % n == 0 && a <= Total(series) <= a + n
    requires series[|series| - 1].points != [] ==> a < Total(series)
    requires series[|series| - 1].points == [] ==> Total(series) < a + n
    ensures RequestsFrom(series, a, n) == [Cut(series, a, Total(series))]
  {
    if a < Total(series) {
      ChunkRest(series, a, n);
      if series[|series| - 1].points == [] {
        Remainder(a, Total(series) - a, n);
      }
    } else {
      CutBeyond(series, |series|, a, a);
    }
  }
}
