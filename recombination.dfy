/** pydigree/recombination.py: builds one gamete from two parental chromatids
    by simulating crossovers along a sorted genetic map under Haldane's
    no-interference model.

    The random draws are inputs: `coin` is the first `randint(0, 2)` draw
    (true when it is 1) and `draws` are the successive exponential increments
    of the crossover position, given as a prefix of the random stream long
    enough to pass the end of the map. */
module Recombination {
  import opened Common

  /** The concrete container class of a chromatid (pydigree.genotypes). */
  datatype ContainerKind = Alleles | LabelledAlleles | OtherContainer(name: string)

  datatype RecombError =
    | EmptyMap               // map[-1] on an empty map raises IndexError
    | InvalidChromosomeType  // chr1 is not an Alleles container
    | MixedChromosomeTypes   // chr1 and chr2 are containers of different classes
    | DtypeMismatch          // chr1 and chr2 store alleles with different dtypes

  /** A chromatid: an allele vector with its container class and dtype. */
  class Chromatid {
    const kind: ContainerKind
    const dtype: string
    const data: array<int>

    constructor (kind: ContainerKind, dtype: string, alleles: seq<int>)
      ensures this.kind == kind && this.dtype == dtype
      ensures fresh(data) && data[..] == alleles
    {
      this.kind := kind;
      this.dtype := dtype;
      data := new int[|alleles|](i requires 0 <= i < |alleles| => alleles[i]);
    }

    /** empty_like: a fresh container of the same class, dtype and length
        whose every allele is the missing code 0. */
    method EmptyLike() returns (c: Chromatid)
      ensures fresh(c) && fresh(c.data)
      ensures c.kind == kind && c.dtype == dtype
      ensures c.data[..] == Missing(data.Length)
    {
      c := new Chromatid(kind, dtype, Missing(data.Length));
    }

    /** copy_span(src, start, stop): positions [start, stop) take src's
        alleles, every other position keeps its own; stop None is the end. */
    method CopySpan(src: Chromatid, start: nat, stop: Option<nat>)
      requires src.data.Length == data.Length
      requires start <= SpanEnd(stop, data.Length) <= data.Length
      modifies data
      ensures forall i :: 0 <= i < data.Length ==>
                data[i] == if start <= i < SpanEnd(stop, data.Length) then old(src.data[i]) else old(data[i])
    {
      var end := SpanEnd(stop, data.Length);
      forall i | start <= i < end {
        data[i] := src.data[i];
      }
    }
  }

  function SpanEnd(stop: Option<nat>, len: nat): nat {
    if stop.Some? then stop.value else len
  }

  function Missing(n: nat): (r: seq<int>)
    ensures |r| == n && forall i :: 0 <= i < n ==> r[i] == 0
  {
    seq(n, _ => 0)
  }

  ghost predicate Sorted(gmap: seq<real>) {
    forall i, j :: 0 <= i <= j < |gmap| ==> gmap[i] <= gmap[j]
  }

  /** Starting at `pos`, adding the increments one at a time carries the
      crossover position past `bound` at some step: the crossover loop ends
      within these draws. */
  ghost predicate LongEnough(draws: seq<real>, pos: real, bound: real)
    decreases |draws|
  {
    |draws| > 0 && (pos + draws[0] > bound || LongEnough(draws[1..], pos + draws[0], bound))
  }

  /** Reference definition of bisect_left(gmap, x, lo, hi): the first index in
      [lo, hi) whose map position is at least x, or hi when there is none. */
  function LowerBound(gmap: seq<real>, x: real, lo: nat, hi: nat): (r: nat)
    requires lo <= hi <= |gmap|
    ensures lo <= r <= hi
    decreases hi - lo
  {
    if lo == hi || gmap[lo] >= x then lo else LowerBound(gmap, x, lo + 1, hi)
  }

  /** The lower bound is the first index of [lo, hi) whose map position is
      at least x: every index before it is below x. */
  lemma {:induction false} LowerBoundIsFirst(gmap: seq<real>, x: real, lo: nat, hi: nat)
    requires lo <= hi <= |gmap|
    ensures forall j :: lo <= j < LowerBound(gmap, x, lo, hi) ==> gmap[j] < x
    ensures LowerBound(gmap, x, lo, hi) < hi ==> gmap[LowerBound(gmap, x, lo, hi)] >= x
    decreases hi - lo
  {
    if lo < hi && gmap[lo] < x {
      LowerBoundIsFirst(gmap, x, lo + 1, hi);
    }
  }

  /** The three bisect_left conditions determine the lower bound. */
  lemma {:induction false} LowerBoundUnique(gmap: seq<real>, x: real, lo: nat, hi: nat, r: nat)
    requires lo <= r <= hi <= |gmap|
    requires forall j :: lo <= j < r ==> gmap[j] < x
    requires forall j :: r <= j < hi ==> gmap[j] >= x
    ensures r == LowerBound(gmap, x, lo, hi)
    decreases r - lo
  {
    if lo < r {
      assert gmap[lo] < x;
      LowerBoundUnique(gmap, x, lo + 1, hi, r);
    }
  }

  /** bisect_left(gmap, x, lo, hi) as Python's bisect module runs it. */
  method BisectLeft(gmap: seq<real>, x: real, lo: nat, hi: nat) returns (r: nat)
    requires lo <= hi <= |gmap| && Sorted(gmap)
    ensures lo <= r <= hi
    ensures forall j :: lo <= j < r ==> gmap[j] < x
    ensures forall j :: r <= j < hi ==> gmap[j] >= x
    ensures r == LowerBound(gmap, x, lo, hi)
  {
    var low, high := lo, hi;
    while low < high
      invariant lo <= low <= high <= hi
      invariant forall j :: lo <= j < low ==> gmap[j] < x
      invariant forall j :: high <= j < hi ==> gmap[j] >= x
    {
      var mid := (low + high) / 2;
      if gmap[mid] < x {
        low := mid + 1;
      } else {
        high := mid;
      }
    }
    r := low;
    LowerBoundUnique(gmap, x, lo, hi, r);
  }

  /** The alleles the crossover loop writes to positions [last, |gmap|) when
      it starts from state (last, pos, flipped) and consumes the increments
      `draws` one per iteration. */
  ghost function GameteFrom(gmap: seq<real>, a: seq<int>, b: seq<int>, last: nat, pos: real, flipped: bool,
                            draws: seq<real>): (r: seq<int>)
    requires 0 < |gmap| == |a| == |b| && last <= |gmap|
    requires LongEnough(draws, pos, gmap[|gmap| - 1])
    ensures |r| == |gmap| - last
    decreases |draws|
  {
    var p := pos + draws[0];
    var src := if !flipped then a else b;
    if p > gmap[|gmap| - 1] then
      src[last..]
    else
      var next := LowerBound(gmap, p, last, |gmap|);
      var rest := GameteFrom(gmap, a, b, next, p, !flipped, draws[1..]);
      src[last..next] + rest
  }

  /** The iteration that passes the end of the map copies the rest of the
      selected parent. */
  lemma GameteStepPast(gmap: seq<real>, a: seq<int>, b: seq<int>, last: nat, pos: real, flipped: bool, draws: seq<real>)
    requires 0 < |gmap| == |a| == |b| && last <= |gmap|
    requires LongEnough(draws, pos, gmap[|gmap| - 1])
    requires pos + draws[0] > gmap[|gmap| - 1]
    ensures GameteFrom(gmap, a, b, last, pos, flipped, draws) == (if !flipped then a else b)[last..]
  {
  }

  /** An iteration inside the map copies the selected parent up to the
      bisect_left index and goes on from there with the other parent. */
  lemma GameteStepInside(gmap: seq<real>, a: seq<int>, b: seq<int>, last: nat, pos: real, flipped: bool,
                         draws: seq<real>, next: nat)
    requires 0 < |gmap| == |a| == |b| && last <= |gmap|
    requires LongEnough(draws, pos, gmap[|gmap| - 1])
    requires pos + draws[0] <= gmap[|gmap| - 1]
    requires next == LowerBound(gmap, pos + draws[0], last, |gmap|)
    ensures LongEnough(draws[1..], pos + draws[0], gmap[|gmap| - 1])
    ensures GameteFrom(gmap, a, b, last, pos, flipped, draws)
            == (if !flipped then a else b)[last..next] + GameteFrom(gmap, a, b, next, pos + draws[0], !flipped, draws[1..])
  {
  }

  /** One pass of the crossover loop that stays inside the map, stated on
      the loop's own variables: the parent now selected agrees with the
      gamete up to the bisect_left index, and the rest of the loop produces
      the gamete from there on. */
  lemma LoopStepInside(gmap: seq<real>, a: seq<int>, b: seq<int>, last: nat, pos: real, flipped: bool,
                       draws: seq<real>, next: nat, newPos: real, newFlipped: bool, newDraws: seq<real>,
                       whole: seq<int>)
    requires 0 < |gmap| == |a| == |b| == |whole| && last <= |gmap|
    requires LongEnough(draws, pos, gmap[|gmap| - 1])
    requires newPos == pos + draws[0] && newFlipped == !flipped && newDraws == draws[1..]
    requires newPos <= gmap[|gmap| - 1]
    requires next == LowerBound(gmap, newPos, last, |gmap|)
    requires GameteFrom(gmap, a, b, last, pos, flipped, draws) == whole[last..]
    ensures last <= next <= |gmap|
    ensures LongEnough(newDraws, newPos, gmap[|gmap| - 1])
    ensures forall i :: last <= i < next ==> whole[i] == (if newFlipped then a else b)[i]
    ensures GameteFrom(gmap, a, b, next, newPos, newFlipped, newDraws) == whole[next..]
  {
  }

  /** The pass of the crossover loop that leaves the map: the parent now
      selected agrees with the gamete from the last crossover on. */
  lemma LoopStepPast(gmap: seq<real>, a: seq<int>, b: seq<int>, last: nat, pos: real, flipped: bool,
                     draws: seq<real>, newPos: real, newFlipped: bool, whole: seq<int>)
    requires 0 < |gmap| == |a| == |b| == |whole| && last <= |gmap|
    requires LongEnough(draws, pos, gmap[|gmap| - 1])
    requires newPos == pos + draws[0] && newFlipped == !flipped && newPos > gmap[|gmap| - 1]
    requires GameteFrom(gmap, a, b, last, pos, flipped, draws) == whole[last..]
    ensures forall i :: last <= i < |gmap| ==> whole[i] == (if newFlipped then a else b)[i]
  {
  }

  /** Position x of the gamete when the first increment passes the map. */
  lemma GameteIndexPast(gmap: seq<real>, a: seq<int>, b: seq<int>, last: nat, pos: real, flipped: bool,
                        draws: seq<real>, x: nat)
    requires 0 < |gmap| == |a| == |b| && last <= x < |gmap|
    requires LongEnough(draws, pos, gmap[|gmap| - 1])
    requires pos + draws[0] > gmap[|gmap| - 1]
    ensures GameteFrom(gmap, a, b, last, pos, flipped, draws)[x - last] == (if !flipped then a else b)[x]
  {
  }

  /** Position x of the gamete, before the bisect_left index of an increment
      that stays inside the map: the selected parent's allele. */
  lemma GameteIndexBefore(gmap: seq<real>, a: seq<int>, b: seq<int>, last: nat, pos: real, flipped: bool,
                          draws: seq<real>, p: real, next: nat, x: nat)
    requires 0 < |gmap| == |a| == |b| && last <= x < |gmap|
    requires LongEnough(draws, pos, gmap[|gmap| - 1])
    requires p == pos + draws[0] && p <= gmap[|gmap| - 1]
    requires next == LowerBound(gmap, p, last, |gmap|) && x < next
    ensures GameteFrom(gmap, a, b, last, pos, flipped, draws)[x - last] == (if !flipped then a else b)[x]
  {
  }

  /** Position x of the gamete, from the bisect_left index on: what the rest
      of the loop produces there. */
  lemma GameteIndexAfter(gmap: seq<real>, a: seq<int>, b: seq<int>, last: nat, pos: real, flipped: bool,
                         draws: seq<real>, p: real, next: nat, x: nat, v: int)
    requires 0 < |gmap| == |a| == |b| && last <= |gmap|
    requires LongEnough(draws, pos, gmap[|gmap| - 1])
    requires p == pos + draws[0] && p <= gmap[|gmap| - 1]
    requires next == LowerBound(gmap, p, last, |gmap|) && next <= x < |gmap|
    requires LongEnough(draws[1..], p, gmap[|gmap| - 1])
    requires GameteFrom(gmap, a, b, next, p, !flipped, draws[1..])[x - next] == v
    ensures GameteFrom(gmap, a, b, last, pos, flipped, draws)[x - last] == v
  {
  }

  /** The gamete _recombine_haldane builds from parents a and b: every
      position holds the allele of one of the parents at that position. */
  ghost function Haldane(gmap: seq<real>, a: seq<int>, b: seq<int>, coin: bool, draws: seq<real>): (r: seq<int>)
    requires 0 < |gmap| == |a| == |b|
    requires LongEnough(draws, 0.0, gmap[|gmap| - 1])
    ensures |r| == |gmap|
  {
    GameteFrom(gmap, a, b, 0, 0.0, coin, draws)
  }

  /** One copied span [start, stop) of the gamete, the parent it comes from
      (chr1 when fromFirst), and the crossover position `at` that ended it. */
  datatype Span = Span(start: nat, stop: nat, fromFirst: bool, at: real)

  /** The spans cover [lo, hi) one after another, each starting where the
      previous one stopped. */
  ghost predicate Partitions(spans: seq<Span>, lo: nat, hi: nat) {
    && (|spans| == 0 ==> lo == hi)
    && (|spans| > 0 ==> spans[0].start == lo && spans[|spans| - 1].stop == hi)
    && (forall i :: 0 <= i < |spans| ==> spans[i].start <= spans[i].stop)
    && (forall i :: 0 <= i < |spans| - 1 ==> spans[i].stop == spans[i + 1].start)
  }

  ghost predicate Within(spans: seq<Span>, lo: nat, hi: nat) {
    forall i :: 0 <= i < |spans| ==> lo <= spans[i].start && spans[i].stop <= hi
  }

  /** Consecutive spans are copied from opposite parents. */
  ghost predicate Alternates(spans: seq<Span>) {
    forall i :: 0 <= i < |spans| - 1 ==> spans[i + 1].fromFirst == !spans[i].fromFirst
  }

  /** Every span but the last ends at the bisect_left index of its crossover
      position, which lies inside the map; the last one ends at a position
      past the map's last entry. */
  ghost predicate EndsAtCrossovers(spans: seq<Span>, gmap: seq<real>)
    requires |gmap| > 0
  {
    && |spans| > 0
    && spans[|spans| - 1].at > gmap[|gmap| - 1]
    && forall i :: 0 <= i < |spans| - 1 ==>
         && spans[i].at <= gmap[|gmap| - 1]
         && spans[i].start <= |gmap|
         && spans[i].stop == LowerBound(gmap, spans[i].at, spans[i].start, |gmap|)
  }

  /** The crossover positions strictly increase, starting above pos. */
  ghost predicate Increasing(spans: seq<Span>, pos: real) {
    && |spans| > 0
    && spans[0].at > pos
    && forall i :: 0 <= i < |spans| - 1 ==> spans[i].at < spans[i + 1].at
  }

  ghost predicate Positive(draws: seq<real>) {
    forall i :: 0 <= i < |draws| ==> draws[i] > 0.0
  }

  /** Prepending a span that ends where a partition of [mid, hi) begins, and
      comes from the other parent than its first span, keeps the partition
      and the alternation. */
  lemma PrependSpan(s: Span, rest: seq<Span>, hi: nat)
    requires s.start <= s.stop && Partitions(rest, s.stop, hi) && Within(rest, s.stop, hi) && Alternates(rest)
    requires |rest| > 0 && rest[0].fromFirst == !s.fromFirst
    ensures Partitions([s] + rest, s.start, hi) && Within([s] + rest, s.start, hi) && Alternates([s] + rest)
  {
    var r := [s] + rest;
    assert forall i :: 0 < i < |r| ==> r[i] == rest[i - 1];
  }

  lemma PrependCrossover(s: Span, rest: seq<Span>, gmap: seq<real>)
    requires |gmap| > 0 && EndsAtCrossovers(rest, gmap)
    requires s.at <= gmap[|gmap| - 1] && s.start <= |gmap|
    requires s.stop == LowerBound(gmap, s.at, s.start, |gmap|)
    ensures EndsAtCrossovers([s] + rest, gmap)
  {
    var r := [s] + rest;
    assert forall i :: 0 < i < |r| ==> r[i] == rest[i - 1];
  }

  lemma PrependIncreasing(s: Span, rest: seq<Span>, pos: real)
    requires Increasing(rest, s.at) && s.at > pos
    ensures Increasing([s] + rest, pos)
  {
    var r := [s] + rest;
    assert forall i :: 0 < i < |r| ==> r[i] == rest[i - 1];
  }

  /** The spans the crossover loop copies from loop state (last, pos, flipped)
      on: they partition [last, |gmap|), alternate between the parents
      starting with the one the flip selects, end at bisect_left boundaries,
      and (with positive increments) at strictly increasing positions. */
  ghost function Schedule(gmap: seq<real>, last: nat, pos: real, flipped: bool, draws: seq<real>): (r: seq<Span>)
    requires 0 < |gmap| && last <= |gmap|
    requires LongEnough(draws, pos, gmap[|gmap| - 1])
    ensures |r| > 0 && r[0].fromFirst == !flipped
    ensures Partitions(r, last, |gmap|) && Within(r, last, |gmap|) && Alternates(r)
    ensures EndsAtCrossovers(r, gmap)
    ensures Positive(draws) ==> Increasing(r, pos)
    decreases |draws|
  {
    var p := pos + draws[0];
    if p > gmap[|gmap| - 1] then
      [Span(last, |gmap|, !flipped, p)]
    else
      var next := LowerBound(gmap, p, last, |gmap|);
      var s := Span(last, next, !flipped, p);
      var rest := Schedule(gmap, next, p, !flipped, draws[1..]);
      PrependSpan(s, rest, |gmap|);
      PrependCrossover(s, rest, gmap);
      if Positive(draws) then
        assert Positive(draws[1..]);
        PrependIncreasing(s, rest, pos);
        [s] + rest
      else
        [s] + rest
  }

  /** The schedule when the first increment passes the end of the map: one
      span to the end, from the parent the flip selects. */
  lemma ScheduleStepPast(gmap: seq<real>, last: nat, pos: real, flipped: bool, draws: seq<real>, p: real)
    requires 0 < |gmap| && last <= |gmap|
    requires LongEnough(draws, pos, gmap[|gmap| - 1])
    requires p == pos + draws[0] && p > gmap[|gmap| - 1]
    ensures Schedule(gmap, last, pos, flipped, draws) == [Span(last, |gmap|, !flipped, p)]
  {
  }

  /** The first span of the schedule when the first increment stays inside
      the map: up to the bisect_left index, from the parent the flip selects. */
  lemma ScheduleStepInside(gmap: seq<real>, last: nat, pos: real, flipped: bool, draws: seq<real>, p: real, next: nat)
    requires 0 < |gmap| && last <= |gmap|
    requires LongEnough(draws, pos, gmap[|gmap| - 1])
    requires p == pos + draws[0] && p <= gmap[|gmap| - 1]
    requires next == LowerBound(gmap, p, last, |gmap|)
    ensures LongEnough(draws[1..], p, gmap[|gmap| - 1])
    ensures Schedule(gmap, last, pos, flipped, draws)[0] == Span(last, next, !flipped, p)
  {
  }

  /** The later spans of the schedule are those of the schedule from the
      first crossover on. */
  lemma ScheduleStepLater(gmap: seq<real>, last: nat, pos: real, flipped: bool, draws: seq<real>, p: real,
                          next: nat, j: nat)
    requires 0 < |gmap| && last <= |gmap|
    requires LongEnough(draws, pos, gmap[|gmap| - 1])
    requires p == pos + draws[0] && p <= gmap[|gmap| - 1]
    requires next == LowerBound(gmap, p, last, |gmap|)
    requires LongEnough(draws[1..], p, gmap[|gmap| - 1])
    requires 0 < j < |Schedule(gmap, last, pos, flipped, draws)|
    ensures j - 1 < |Schedule(gmap, next, p, !flipped, draws[1..])|
    ensures Schedule(gmap, last, pos, flipped, draws)[j] == Schedule(gmap, next, p, !flipped, draws[1..])[j - 1]
  {
    var rest := Schedule(gmap, next, p, !flipped, draws[1..]);
    assert Schedule(gmap, last, pos, flipped, draws) == [Span(last, next, !flipped, p)] + rest;
  }

  /** The loop writes, at each position of a span, the allele of the parent
      that span comes from. */
  lemma {:induction false} GameteFollowsSchedule(gmap: seq<real>, a: seq<int>, b: seq<int>, last: nat, pos: real,
                                                 flipped: bool, draws: seq<real>, j: nat, x: nat)
    requires 0 < |gmap| == |a| == |b| && last <= |gmap|
    requires LongEnough(draws, pos, gmap[|gmap| - 1])
    requires var r := Schedule(gmap, last, pos, flipped, draws);
      j < |r| && r[j].start <= x < r[j].stop
    ensures last <= x < |gmap|
    ensures GameteFrom(gmap, a, b, last, pos, flipped, draws)[x - last]
            == if Schedule(gmap, last, pos, flipped, draws)[j].fromFirst then a[x] else b[x]
    decreases |draws|
  {
    var p := pos + draws[0];
    if p > gmap[|gmap| - 1] {
      ScheduleStepPast(gmap, last, pos, flipped, draws, p);
      GameteIndexPast(gmap, a, b, last, pos, flipped, draws, x);
    } else {
      var next := LowerBound(gmap, p, last, |gmap|);
      ScheduleStepInside(gmap, last, pos, flipped, draws, p, next);
      if j == 0 {
        GameteIndexBefore(gmap, a, b, last, pos, flipped, draws, p, next, x);
      } else {
        ScheduleStepLater(gmap, last, pos, flipped, draws, p, next, j);
        GameteFollowsSchedule(gmap, a, b, next, p, !flipped, draws[1..], j - 1, x);
        GameteIndexAfter(gmap, a, b, last, pos, flipped, draws, p, next, x,
                         if Schedule(gmap, next, p, !flipped, draws[1..])[j - 1].fromFirst then a[x] else b[x]);
      }
    }
  }

  lemma {:induction false} PartitionOrdered(spans: seq<Span>, lo: nat, hi: nat, i: nat, j: nat)
    requires Partitions(spans, lo, hi) && i < j < |spans|
    ensures spans[i].stop <= spans[j].start
    decreases j - i
  {
    if i + 1 < j {
      PartitionOrdered(spans, lo, hi, i, j - 1);
    }
  }

  /** Every index of [lo, hi) lies in some span ... */
  lemma {:induction false} SpanOwnerExists(spans: seq<Span>, lo: nat, hi: nat, x: nat) returns (j: nat)
    requires Partitions(spans, lo, hi) && lo <= x < hi
    ensures j < |spans| && spans[j].start <= x < spans[j].stop
    decreases |spans|
  {
    var n := |spans|;
    if x >= spans[n - 1].start {
      j := n - 1;
    } else {
      j := SpanOwnerExists(spans[..n - 1], lo, spans[n - 1].start, x);
    }
  }

  /** ... and in no other: each index is copied exactly once. */
  lemma SpanOwnerUnique(spans: seq<Span>, lo: nat, hi: nat, x: nat, j1: nat, j2: nat)
    requires Partitions(spans, lo, hi)
    requires j1 < |spans| && spans[j1].start <= x < spans[j1].stop
    requires j2 < |spans| && spans[j2].start <= x < spans[j2].stop
    ensures j1 == j2
  {
    if j1 < j2 {
      PartitionOrdered(spans, lo, hi, j1, j2);
    } else if j2 < j1 {
      PartitionOrdered(spans, lo, hi, j2, j1);
    }
  }

  /** Every position of the gamete lies in exactly one span of the crossover
      schedule and carries the allele of the parent that span is copied from. */
  lemma HaldaneFollowsSchedule(gmap: seq<real>, a: seq<int>, b: seq<int>, coin: bool, draws: seq<real>, x: nat)
    returns (j: nat)
    requires 0 < |gmap| == |a| == |b| && x < |gmap|
    requires LongEnough(draws, 0.0, gmap[|gmap| - 1])
    ensures var spans := Schedule(gmap, 0, 0.0, coin, draws);
      && j < |spans| && spans[j].start <= x < spans[j].stop
      && (forall k :: 0 <= k < |spans| && spans[k].start <= x < spans[k].stop ==> k == j)
      && Haldane(gmap, a, b, coin, draws)[x] == if spans[j].fromFirst then a[x] else b[x]
  {
    var spans := Schedule(gmap, 0, 0.0, coin, draws);
    j := SpanOwnerExists(spans, 0, |gmap|, x);
    GameteFollowsSchedule(gmap, a, b, 0, 0.0, coin, draws, j, x);
    forall k | 0 <= k < |spans| && spans[k].start <= x < spans[k].stop ensures k == j {
      SpanOwnerUnique(spans, 0, |gmap|, x, j, k);
    }
  }

  /** The gamete holds, at every position, the allele one of the parents has
      there. */
  lemma HaldaneTakesParentAlleles(gmap: seq<real>, a: seq<int>, b: seq<int>, coin: bool, draws: seq<real>)
    requires 0 < |gmap| == |a| == |b|
    requires LongEnough(draws, 0.0, gmap[|gmap| - 1])
    ensures forall x :: 0 <= x < |gmap| ==>
              Haldane(gmap, a, b, coin, draws)[x] == a[x] || Haldane(gmap, a, b, coin, draws)[x] == b[x]
  {
    forall x | 0 <= x < |gmap|
      ensures Haldane(gmap, a, b, coin, draws)[x] == a[x] || Haldane(gmap, a, b, coin, draws)[x] == b[x]
    {
      var _ := HaldaneFollowsSchedule(gmap, a, b, coin, draws, x);
    }
  }

  /** When the first increment already passes the end of the map, the gamete
      is one parent in full: chr1 when the coin is 0, chr2 when it is 1. */
  lemma FirstDrawPastMapCopiesParent(gmap: seq<real>, a: seq<int>, b: seq<int>, coin: bool, draws: seq<real>)
    requires 0 < |gmap| == |a| == |b|
    requires LongEnough(draws, 0.0, gmap[|gmap| - 1])
    requires draws[0] > gmap[|gmap| - 1]
    ensures Haldane(gmap, a, b, coin, draws) == if coin then b else a
  {
    assert a[0..] == a && b[0..] == b;
  }

  /** _recombine_haldane: the alternating crossover loop. */
  method RecombineHaldane(chr1: Chromatid, chr2: Chromatid, gmap: seq<real>, coin: bool, draws: seq<real>)
    returns (r: Result<Chromatid, RecombError>)
    requires chr1.data.Length == chr2.data.Length == |gmap|
    requires Sorted(gmap)
    requires |gmap| > 0 ==> LongEnough(draws, 0.0, gmap[|gmap| - 1])
    ensures |gmap| == 0 ==> r == Err(EmptyMap)
    ensures |gmap| > 0 && chr1.kind != Alleles ==> r == Err(InvalidChromosomeType)
    ensures |gmap| > 0 && chr1.kind == Alleles && chr2.kind != chr1.kind ==> r == Err(MixedChromosomeTypes)
    ensures |gmap| > 0 && chr1.kind == chr2.kind == Alleles && chr1.dtype != chr2.dtype ==> r == Err(DtypeMismatch)
    ensures |gmap| > 0 && chr1.kind == chr2.kind == Alleles && chr1.dtype == chr2.dtype ==>
              && r.Ok? && fresh(r.value) && fresh(r.value.data)
              && r.value.kind == Alleles && r.value.dtype == chr1.dtype
              && r.value.data[..] == Haldane(gmap, chr1.data[..], chr2.data[..], coin, draws)
  {
    if |gmap| == 0 {
      return Err(EmptyMap);
    }
    var maxmap := gmap[|gmap| - 1];
    var nmark := |gmap|;
    if chr1.kind != Alleles {
      return Err(InvalidChromosomeType);
    }
    if chr2.kind != chr1.kind {
      return Err(MixedChromosomeTypes);
    }
    if chr1.dtype != chr2.dtype {
      return Err(DtypeMismatch);
    }
    ghost var a, b := chr1.data[..], chr2.data[..];
    var newchrom := chr1.EmptyLike();
    var flipped := coin;
    var lastCrossoverIndex: nat := 0;
    var crossoverPosition := 0.0;
    var remaining := draws;
    ghost var gamete := Haldane(gmap, a, b, coin, draws);
    while true
      invariant lastCrossoverIndex <= nmark
      invariant LongEnough(remaining, crossoverPosition, maxmap)
      invariant forall i :: 0 <= i < lastCrossoverIndex ==> newchrom.data[i] == gamete[i]
      invariant GameteFrom(gmap, a, b, lastCrossoverIndex, crossoverPosition, flipped, remaining)
                == gamete[lastCrossoverIndex..]
      invariant fresh(newchrom.data) && newchrom.data.Length == nmark
      invariant chr1.data[..] == a && chr2.data[..] == b
      decreases |remaining|
    {
      ghost var ds, oldFlipped, oldPosition := remaining, flipped, crossoverPosition;
      flipped := !flipped;
      var c := if flipped then chr1 else chr2;
      crossoverPosition := crossoverPosition + remaining[0];
      remaining := remaining[1..];
      assert c.data[..] == if flipped then a else b;
      if crossoverPosition > maxmap {
        LoopStepPast(gmap, a, b, lastCrossoverIndex, oldPosition, oldFlipped, ds, crossoverPosition, flipped, gamete);
        newchrom.CopySpan(c, lastCrossoverIndex, None);
        assert newchrom.data[..] == gamete;
        break;
      }
      var nextidx := BisectLeft(gmap, crossoverPosition, lastCrossoverIndex, nmark);
      LoopStepInside(gmap, a, b, lastCrossoverIndex, oldPosition, oldFlipped, ds, nextidx,
                     crossoverPosition, flipped, remaining, gamete);
      newchrom.CopySpan(c, lastCrossoverIndex, Some(nextidx));
      lastCrossoverIndex := nextidx;
    }
    return Ok(newchrom);
  }

  /** recombine: with a one-position gmap, one parent is returned as it is;
      otherwise the Haldane crossover loop runs. */
  method Recombine(chr1: Chromatid, chr2: Chromatid, gmap: seq<real>, coin: bool, draws: seq<real>)
    returns (r: Result<Chromatid, RecombError>)
    requires chr1.data.Length == chr2.data.Length == |gmap|
    requires Sorted(gmap)
    requires |gmap| > 1 ==> LongEnough(draws, 0.0, gmap[|gmap| - 1])
    ensures |gmap| == 1 ==> r == Ok(if coin then chr1 else chr2)
    ensures |gmap| == 0 ==> r == Err(EmptyMap)
    ensures |gmap| > 1 && chr1.kind != Alleles ==> r == Err(InvalidChromosomeType)
    ensures |gmap| > 1 && chr1.kind == Alleles && chr2.kind != chr1.kind ==> r == Err(MixedChromosomeTypes)
    ensures |gmap| > 1 && chr1.kind == chr2.kind == Alleles && chr1.dtype != chr2.dtype ==> r == Err(DtypeMismatch)
    ensures |gmap| > 1 && chr1.kind == chr2.kind == Alleles && chr1.dtype == chr2.dtype ==>
              && r.Ok? && fresh(r.value) && fresh(r.value.data)
              && r.value.kind == Alleles && r.value.dtype == chr1.dtype
              && r.value.data[..] == Haldane(gmap, chr1.data[..], chr2.data[..], coin, draws)
  {
    if |gmap| == 1 {
      return Ok(if coin then chr1 else chr2);
    }
    r := RecombineHaldane(chr1, chr2, gmap, coin, draws);
  }
}
