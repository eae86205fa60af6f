/** The batch auto tuner, with real-valued latencies. */
module AutoTuner {
  import opened Reals

  datatype Config = Config(target: real, min: int, max: int, historySize: nat, factor: real)

  datatype Tuner = Tuner(size: int, history: seq<real>, analyzed: nat, adjustments: nat)

  /** int(x) */
  function Truncate(x: real): int {
    if x >= 0.0 then x.Floor else -((-x).Floor)
  }

  function Clamp(cfg: Config, n: int): int {
    var capped := if cfg.max < n then cfg.max else n;
    if cfg.min > capped then cfg.min else capped
  }

  function Scaled(size: int, ratio: real): real {
    size as real * ratio
  }

  function Shrunk(cfg: Config, size: int): int {
    Clamp(cfg, Truncate(Scaled(size, 1.0 - cfg.factor)))
  }

  function Grown(cfg: Config, size: int): int {
    Clamp(cfg, Truncate(Scaled(size, 1.0 + cfg.factor)))
  }

  /** _update_batch_size_recommendation */
  function Recommended(cfg: Config, size: int, history: seq<real>): int {
    if |history| < 3 then size
    else if Mean(history) > cfg.target then Shrunk(cfg, size)
    else if Mean(history) < cfg.target * 0.8 then Grown(cfg, size)
    else size
  }

  /** The bounded deque drops its oldest element when full. */
  function Appended(cfg: Config, history: seq<real>, p99: real): seq<real> {
    var longer := history + [p99];
    if |longer| > cfg.historySize then longer[|longer| - cfg.historySize..] else longer
  }

  function Record(cfg: Config, t: Tuner, p99: real): Tuner {
    var history := Appended(cfg, t.history, p99);
    var size := Recommended(cfg, t.size, history);
    Tuner(size, history, t.analyzed + 1, t.adjustments + if size != t.size then 1 else 0)
  }

  function RecordAll(cfg: Config, t: Tuner, p99s: seq<real>): Tuner {
    if p99s == [] then t
    else Record(cfg, RecordAll(cfg, t, p99s[..|p99s| - 1]), p99s[|p99s| - 1])
  }

  ghost predicate Sane(cfg: Config) {
    1 <= cfg.min <= cfg.max && 0.0 < cfg.factor < 1.0 && cfg.historySize >= 3
  }

  /** The recommendation never leaves its bounds. */
  lemma {:induction false} SizeStaysWithinBounds(cfg: Config, t: Tuner, p99s: seq<real>)
    requires cfg.min <= cfg.max && cfg.min <= t.size <= cfg.max
    ensures cfg.min <= RecordAll(cfg, t, p99s).size <= cfg.max
  {
    if p99s != [] {
      SizeStaysWithinBounds(cfg, t, p99s[..|p99s| - 1]);
    }
  }

  // ----- what one record does -----

  /** n is x without its fraction. */
  ghost predicate TowardZero(x: real, n: int) {
    if x >= 0.0 then n as real <= x < n as real + 1.0 else n as real - 1.0 < x <= n as real
  }

  /** r is n, or the bound it oversteps. */
  ghost predicate Bounded(cfg: Config, n: int, r: int) {
    && (cfg.min <= n <= cfg.max ==> r == n)
    && (n < cfg.min ==> r == cfg.min)
    && (n > cfg.max ==> r == cfg.max)
  }

  /** The size times the ratio, truncated and bounded. */
  ghost predicate Moved(cfg: Config, size: int, ratio: real, r: int) {
    exists n :: TowardZero(size as real * ratio, n) && Bounded(cfg, n, r)
  }

  lemma MovedMeaning(cfg: Config, size: int)
    requires cfg.min <= cfg.max
    ensures Moved(cfg, size, 1.0 - cfg.factor, Shrunk(cfg, size))
    ensures Moved(cfg, size, 1.0 + cfg.factor, Grown(cfg, size))
  {
    var down, up := Truncate(Scaled(size, 1.0 - cfg.factor)), Truncate(Scaled(size, 1.0 + cfg.factor));
    assert TowardZero(size as real * (1.0 - cfg.factor), down) && Bounded(cfg, down, Shrunk(cfg, size));
    assert TowardZero(size as real * (1.0 + cfg.factor), up) && Bounded(cfg, up, Grown(cfg, size));
  }

  lemma MeanAgainst(values: seq<real>, bound: real)
    requires values != []
    ensures Mean(values) > bound <==> Sum(values) > |values| as real * bound
    ensures Mean(values) < bound <==> Sum(values) < |values| as real * bound
  {
    var n, sum := |values| as real, Sum(values);
    QuotientAbove(sum, |values|, bound);
    if sum == n * bound {
      assert (sum / n) * n == sum;
      assert sum / n == bound;
    }
  }

  /** The samples held decide once there are three: above the target on average the size shrinks,
      below four fifths of it it grows, and in between it stays. The averages are compared by
      their sums. */
  ghost predicate Decides(cfg: Config, history: seq<real>, n: real, size: int, next: int) {
    if |history| < 3 then next == size
    else if Sum(history) > n * cfg.target then Moved(cfg, size, 1.0 - cfg.factor, next)
    else if Sum(history) < n * (cfg.target * 0.8) then Moved(cfg, size, 1.0 + cfg.factor, next)
    else next == size
  }

  lemma RecommendedMeaning(cfg: Config, size: int, history: seq<real>, n: real)
    requires cfg.min <= cfg.max && n == |history| as real
    ensures Decides(cfg, history, n, size, Recommended(cfg, size, history))
  {
    MovedMeaning(cfg, size);
    if history != [] {
      MeanAgainst(history, cfg.target);
      MeanAgainst(history, cfg.target * 0.8);
    }
  }

  lemma RecordMeaning(cfg: Config, t: Tuner, p99: real, n: real)
    requires cfg.min <= cfg.max && n == |Record(cfg, t, p99).history| as real
    ensures Decides(cfg, Record(cfg, t, p99).history, n, t.size, Record(cfg, t, p99).size)
  {
    RecommendedMeaning(cfg, t.size, Record(cfg, t, p99).history, n);
  }

  /** Over any samples each is analysed once, and each change of the size is one adjustment. */
  lemma {:induction false} CountersAreExact(cfg: Config, t: Tuner, p99s: seq<real>)
    ensures RecordAll(cfg, t, p99s).analyzed == t.analyzed + |p99s|
    ensures RecordAll(cfg, t, p99s).adjustments == t.adjustments + Changes(cfg, t, p99s)
  {
    if p99s != [] {
      CountersAreExact(cfg, t, p99s[..|p99s| - 1]);
    }
  }

  /** How often the size changes. */
  function Changes(cfg: Config, t: Tuner, p99s: seq<real>): nat {
    if p99s == [] then 0 else
      var front := p99s[..|p99s| - 1];
      Changes(cfg, t, front) + if RecordAll(cfg, t, p99s).size == RecordAll(cfg, t, front).size then 0 else 1
  }

  // ----- sustained load -----

  lemma {:induction false} SumAbove(values: seq<real>, bound: real)
    requires forall i :: 0 <= i < |values| ==> values[i] > bound
    ensures Sum(values) >= |values| as real * bound
    ensures values != [] ==> Sum(values) > |values| as real * bound
  {
    if values != [] {
      SumAbove(values[..|values| - 1], bound);
    }
  }

  lemma {:induction false} SumBelow(values: seq<real>, bound: real)
    requires forall i :: 0 <= i < |values| ==> values[i] < bound
    ensures Sum(values) <= |values| as real * bound
    ensures values != [] ==> Sum(values) < |values| as real * bound
  {
    if values != [] {
      SumBelow(values[..|values| - 1], bound);
    }
  }

  lemma QuotientAbove(sum: real, n: int, bound: real)
    requires n > 0
    ensures sum > n as real * bound ==> sum / n as real > bound
    ensures sum < n as real * bound ==> sum / n as real < bound
  {
    var q := sum / n as real;
    assert q * n as real == sum;
    if q <= bound {
      assert q * n as real <= bound * n as real;
    }
    if q >= bound {
      assert q * n as real >= bound * n as real;
    }
  }

  lemma AverageAbove(values: seq<real>, bound: real)
    requires values != [] && AllAbove(values, bound)
    ensures Mean(values) > bound
  {
    SumAbove(values, bound);
    QuotientAbove(Sum(values), |values|, bound);
  }

  lemma AverageBelow(values: seq<real>, bound: real)
    requires values != [] && AllBelow(values, bound)
    ensures Mean(values) < bound
  {
    SumBelow(values, bound);
    QuotientAbove(Sum(values), |values|, bound);
  }

  ghost predicate AllAbove(values: seq<real>, bound: real) {
    forall i :: 0 <= i < |values| ==> values[i] > bound
  }

  ghost predicate AllBelow(values: seq<real>, bound: real) {
    forall i :: 0 <= i < |values| ==> values[i] < bound
  }

  /** The recommendation after n shrinking steps. */
  function ShrunkTimes(cfg: Config, size: int, n: nat): int {
    if n == 0 then size else Shrunk(cfg, ShrunkTimes(cfg, size, n - 1))
  }

  function GrownTimes(cfg: Config, size: int, n: nat): int {
    if n == 0 then size else Grown(cfg, GrownTimes(cfg, size, n - 1))
  }

  lemma AppendedKeeps(cfg: Config, history: seq<real>, p99: real)
    requires cfg.historySize >= 3 && 2 <= |history| <= cfg.historySize
    ensures 3 <= |Appended(cfg, history, p99)| <= cfg.historySize
    ensures forall bound :: AllAbove(history, bound) && p99 > bound ==> AllAbove(Appended(cfg, history, p99), bound)
    ensures forall bound :: AllBelow(history, bound) && p99 < bound ==> AllBelow(Appended(cfg, history, p99), bound)
  {
  }

  /** Once three samples count, an overloaded batch shrinks the recommendation. */
  lemma OverloadedRecord(cfg: Config, size: int, history: seq<real>)
    requires |history| >= 3 && AllAbove(history, cfg.target)
    ensures Recommended(cfg, size, history) == Shrunk(cfg, size)
  {
    AverageAbove(history, cfg.target);
  }

  lemma FastRecord(cfg: Config, size: int, history: seq<real>)
    requires |history| >= 3 && cfg.target > 0.0 && AllBelow(history, cfg.target * 0.8)
    ensures Recommended(cfg, size, history) == Grown(cfg, size)
  {
    AverageBelow(history, cfg.target * 0.8);
  }

  lemma {:induction false} OverloadShrinks(cfg: Config, t: Tuner, p99s: seq<real>)
    requires cfg.historySize >= 3 && 2 <= |t.history| <= cfg.historySize
    requires AllAbove(t.history, cfg.target) && AllAbove(p99s, cfg.target)
    ensures var end := RecordAll(cfg, t, p99s);
            && 2 <= |end.history| <= cfg.historySize && AllAbove(end.history, cfg.target)
            && end.size == ShrunkTimes(cfg, t.size, |p99s|)
  {
    if p99s != [] {
      OverloadShrinks(cfg, t, p99s[..|p99s| - 1]);
      var before, last := RecordAll(cfg, t, p99s[..|p99s| - 1]), p99s[|p99s| - 1];
      AppendedKeeps(cfg, before.history, last);
      OverloadedRecord(cfg, before.size, Appended(cfg, before.history, last));
    }
  }

  lemma {:induction false} LowLatencyGrows(cfg: Config, t: Tuner, p99s: seq<real>)
    requires cfg.historySize >= 3 && 2 <= |t.history| <= cfg.historySize && cfg.target > 0.0
    requires AllBelow(t.history, cfg.target * 0.8) && AllBelow(p99s, cfg.target * 0.8)
    ensures var end := RecordAll(cfg, t, p99s);
            && 2 <= |end.history| <= cfg.historySize && AllBelow(end.history, cfg.target * 0.8)
            && end.size == GrownTimes(cfg, t.size, |p99s|)
  {
    if p99s != [] {
      LowLatencyGrows(cfg, t, p99s[..|p99s| - 1]);
      var before, last := RecordAll(cfg, t, p99s[..|p99s| - 1]), p99s[|p99s| - 1];
      AppendedKeeps(cfg, before.history, last);
      FastRecord(cfg, before.size, Appended(cfg, before.history, last));
    }
  }

  function Power(x: real, n: nat): real {
    if n == 0 then 1.0 else x * Power(x, n - 1)
  }

  lemma ProductBounds(n: real, k: real)
    requires 0.0 < n && 0.0 < k < 1.0
    ensures 0.0 < n * k < n && 0.0 < n * (1.0 - k) < n
    ensures n * (1.0 - k) == n - n * k && n * (1.0 + k) == n + n * k
  {
  }

  lemma ScaledDown(size: int, ratio: real)
    requires 0 < size && 0.0 < ratio < 1.0
    ensures 0.0 < Scaled(size, ratio) < size as real
  {
    ProductBounds(size as real, ratio);
  }

  lemma ClampedBelow(cfg: Config, size: int, x: real)
    requires 1 <= cfg.min <= size <= cfg.max && 0.0 < x < size as real
    ensures var next := Clamp(cfg, Truncate(x));
            && cfg.min <= next <= size
            && (size > cfg.min ==> next < size)
            && (next == cfg.min || next as real <= x)
  {
    assert 0 <= x.Floor < size;
  }

  /** A shrinking step moves every size above the minimum, by at least the factor
      unless the minimum stops it. */
  lemma ShrinkStep(cfg: Config, size: int)
    requires Sane(cfg) && cfg.min <= size <= cfg.max
    ensures cfg.min <= Shrunk(cfg, size) <= size
    ensures size > cfg.min ==> Shrunk(cfg, size) < size
    ensures Shrunk(cfg, size) == cfg.min || Shrunk(cfg, size) as real <= Scaled(size, 1.0 - cfg.factor)
  {
    ScaledDown(size, 1.0 - cfg.factor);
    ClampedBelow(cfg, size, Scaled(size, 1.0 - cfg.factor));
  }

  lemma ScaledPower(size: real, next: real, k: real, n: nat, c: real)
    requires 0.0 <= k && size <= c * Power(k, n) && next <= size * k
    ensures next <= c * Power(k, n + 1)
  {
    var p := Power(k, n);
    TimesMonotone(size, c * p, k);
    Associate(c, p, k);
  }

  lemma Associate(c: real, p: real, k: real)
    ensures (c * p) * k == c * (k * p)
  {
  }

  /** What n shrinking steps have made of the start. */
  ghost predicate Decayed(cfg: Config, start: int, size: int, n: nat) {
    && cfg.min <= size <= start
    && (size == cfg.min || size as real <= start as real * Power(1.0 - cfg.factor, n))
    && (size == cfg.min || size <= start - n)
  }

  lemma DecayStep(cfg: Config, start: int, size: int, n: nat)
    requires Sane(cfg) && start <= cfg.max && Decayed(cfg, start, size, n)
    ensures Decayed(cfg, start, Shrunk(cfg, size), n + 1)
  {
    ShrinkStep(cfg, size);
    var next := Shrunk(cfg, size);
    if next != cfg.min {
      ScaledPower(size as real, next as real, 1.0 - cfg.factor, n, start as real);
    }
  }

  /** Under sustained overload the size decays geometrically and reaches the minimum in
      at most as many adjustments as it is above it. */
  lemma {:induction false} OverloadDecays(cfg: Config, start: int, n: nat)
    requires Sane(cfg) && cfg.min <= start <= cfg.max
    ensures Decayed(cfg, start, ShrunkTimes(cfg, start, n), n)
    ensures n >= start - cfg.min ==> ShrunkTimes(cfg, start, n) == cfg.min
  {
    if n > 0 {
      OverloadDecays(cfg, start, n - 1);
      DecayStep(cfg, start, ShrunkTimes(cfg, start, n - 1), n - 1);
    } else {
      assert start as real * 1.0 == start as real;
    }
  }

  /** A growth step is worth at least one whole item. */
  ghost predicate Moves(cfg: Config, size: int) {
    size as real * cfg.factor >= 1.0
  }

  /** A growth step moves a size below the maximum if and only if size * factor is at least 1. */
  lemma GrowStep(cfg: Config, size: int)
    requires Sane(cfg) && cfg.min <= size <= cfg.max
    ensures size <= Grown(cfg, size) <= cfg.max
    ensures size < cfg.max ==> (Grown(cfg, size) > size <==> Moves(cfg, size))
  {
    ProductBounds(size as real, cfg.factor);
    var x := size as real * (1.0 + cfg.factor);
    if Moves(cfg, size) {
      assert x >= (size + 1) as real;
    } else {
      assert x.Floor == size;
    }
  }

  lemma LargerStillGrows(size: int, larger: int, factor: real)
    requires size <= larger && 0.0 < factor && size as real * factor >= 1.0
    ensures larger as real * factor >= 1.0
  {
    TimesMonotone(size as real, larger as real, factor);
  }

  /** What n growing steps have made of the start. */
  ghost predicate Climbed(cfg: Config, start: int, size: int, n: nat) {
    if Moves(cfg, start)
    then start <= size <= cfg.max && (size == cfg.max || size >= start + n)
    else size == start
  }

  lemma ClimbStep(cfg: Config, start: int, size: int, n: nat)
    requires Sane(cfg) && cfg.min <= start < cfg.max && Climbed(cfg, start, size, n)
    ensures Climbed(cfg, start, Grown(cfg, size), n + 1)
  {
    GrowStep(cfg, size);
    if Moves(cfg, start) {
      LargerStillGrows(start, size, cfg.factor);
    }
  }

  /** Under sustained low latency a size below the maximum reaches it, within as many
      adjustments as it is below it, if and only if start * factor is at least 1;
      otherwise it never moves. */
  lemma {:induction false} LowLatencyReachesTheTop(cfg: Config, start: int, n: nat)
    requires Sane(cfg) && cfg.min <= start < cfg.max
    ensures Climbed(cfg, start, GrownTimes(cfg, start, n), n)
    ensures n >= cfg.max - start ==>
              (GrownTimes(cfg, start, n) == cfg.max <==> Moves(cfg, start))
  {
    if n > 0 {
      LowLatencyReachesTheTop(cfg, start, n - 1);
      ClimbStep(cfg, start, GrownTimes(cfg, start, n - 1), n - 1);
    }
  }

  // ----- whole runs of the tuner -----

  function AllAppended(cfg: Config, history: seq<real>, p99s: seq<real>): seq<real> {
    if p99s == [] then history
    else Appended(cfg, AllAppended(cfg, history, p99s[..|p99s| - 1]), p99s[|p99s| - 1])
  }

  lemma {:induction false} HistoryIsAppended(cfg: Config, t: Tuner, p99s: seq<real>)
    ensures RecordAll(cfg, t, p99s).history == AllAppended(cfg, t.history, p99s)
  {
    if p99s != [] {
      HistoryIsAppended(cfg, t, p99s[..|p99s| - 1]);
    }
  }

  /** The history is the newest historySize of all the samples. */
  lemma {:induction false} HistoryIsTheNewest(cfg: Config, history: seq<real>, p99s: seq<real>)
    requires |history| <= cfg.historySize
    ensures var all := history + p99s;
            AllAppended(cfg, history, p99s) ==
            if |all| > cfg.historySize then all[|all| - cfg.historySize..] else all
  {
    if p99s != [] {
      var front, last := p99s[..|p99s| - 1], p99s[|p99s| - 1];
      HistoryIsTheNewest(cfg, history, front);
      assert history + p99s == (history + front) + [last];
    } else {
      assert history + p99s == history;
    }
  }

  /** Whatever the tuner saw before, historySize samples push it out. */
  lemma FullHistory(cfg: Config, history: seq<real>, p99s: seq<real>)
    requires |history| <= cfg.historySize <= |p99s|
    ensures AllAppended(cfg, history, p99s) == p99s[|p99s| - cfg.historySize..]
  {
    HistoryIsTheNewest(cfg, history, p99s);
    if history == [] {
      assert history + p99s == p99s;
    } else {
      SuffixOfSum(history, p99s, |p99s| - cfg.historySize);
    }
  }

  lemma SuffixOfSum(a: seq<real>, b: seq<real>, j: nat)
    requires j <= |b|
    ensures (a + b)[|a| + j..] == b[j..]
  {
  }

  ghost predicate EndsAtMin(cfg: Config, start: int, end: int, n: nat) {
    n >= start - cfg.min ==> end == cfg.min
  }

  ghost predicate EndsAtMaxIffMoving(cfg: Config, start: int, end: int, n: nat) {
    n >= cfg.max - start ==> (end == cfg.max <==> Moves(cfg, start))
  }

  lemma OverloadedFrom(cfg: Config, t: Tuner, p99s: seq<real>)
    requires Sane(cfg) && cfg.min <= t.size <= cfg.max && 2 <= |t.history| <= cfg.historySize
    requires AllAbove(t.history, cfg.target) && AllAbove(p99s, cfg.target)
    ensures Decayed(cfg, t.size, RecordAll(cfg, t, p99s).size, |p99s|)
    ensures EndsAtMin(cfg, t.size, RecordAll(cfg, t, p99s).size, |p99s|)
  {
    OverloadShrinks(cfg, t, p99s);
    OverloadDecays(cfg, t.size, |p99s|);
  }

  lemma FastFrom(cfg: Config, t: Tuner, p99s: seq<real>)
    requires Sane(cfg) && cfg.target > 0.0 && cfg.min <= t.size < cfg.max && 2 <= |t.history| <= cfg.historySize
    requires AllBelow(t.history, cfg.target * 0.8) && AllBelow(p99s, cfg.target * 0.8)
    ensures Climbed(cfg, t.size, RecordAll(cfg, t, p99s).size, |p99s|)
    ensures EndsAtMaxIffMoving(cfg, t.size, RecordAll(cfg, t, p99s).size, |p99s|)
  {
    LowLatencyGrows(cfg, t, p99s);
    LowLatencyReachesTheTop(cfg, t.size, |p99s|);
  }

  /** Enough samples to fill the history, or the second one of a tuner that has seen no others. */
  predicate Warm(cfg: Config, history: seq<real>, warmUp: seq<real>) {
    |warmUp| >= cfg.historySize || (history == [] && |warmUp| >= 2)
  }

  lemma WarmHistory(cfg: Config, history: seq<real>, warmUp: seq<real>)
    requires cfg.historySize >= 3 && |history| <= cfg.historySize && Warm(cfg, history, warmUp)
    ensures var seen := AllAppended(cfg, history, warmUp);
            && 2 <= |seen| <= cfg.historySize
            && forall i :: 0 <= i < |seen| ==> seen[i] in warmUp
  {
    HistoryIsTheNewest(cfg, history, warmUp);
    if |warmUp| >= cfg.historySize {
      FullHistory(cfg, history, warmUp);
    } else {
      assert history + warmUp == warmUp;
    }
  }

  lemma Warmed(cfg: Config, t: Tuner, warmUp: seq<real>) returns (warm: Tuner)
    requires Sane(cfg) && cfg.min <= t.size <= cfg.max && |t.history| <= cfg.historySize
    requires Warm(cfg, t.history, warmUp)
    ensures warm == RecordAll(cfg, t, warmUp)
    ensures cfg.min <= warm.size <= cfg.max && 2 <= |warm.history| <= cfg.historySize
    ensures forall i :: 0 <= i < |warm.history| ==> warm.history[i] in warmUp
  {
    warm := RecordAll(cfg, t, warmUp);
    SizeStaysWithinBounds(cfg, t, warmUp);
    HistoryIsAppended(cfg, t, warmUp);
    WarmHistory(cfg, t.history, warmUp);
  }

  lemma MembersAbove(history: seq<real>, samples: seq<real>, bound: real)
    requires forall i :: 0 <= i < |history| ==> history[i] in samples
    ensures AllAbove(samples, bound) ==> AllAbove(history, bound)
    ensures AllBelow(samples, bound) ==> AllBelow(history, bound)
  {
  }

  /** Sustained overload: whatever the tuner saw before, once warm the size decays
      geometrically and ends at the minimum. */
  lemma SustainedOverload(cfg: Config, t: Tuner, warmUp: seq<real>, p99s: seq<real>) returns (warm: Tuner, end: Tuner)
    requires Sane(cfg) && cfg.min <= t.size <= cfg.max && |t.history| <= cfg.historySize
    requires Warm(cfg, t.history, warmUp) && AllAbove(warmUp, cfg.target) && AllAbove(p99s, cfg.target)
    ensures warm == RecordAll(cfg, t, warmUp) && end == RecordAll(cfg, warm, p99s)
    ensures Decayed(cfg, warm.size, end.size, |p99s|) && EndsAtMin(cfg, warm.size, end.size, |p99s|)
  {
    warm := Warmed(cfg, t, warmUp);
    MembersAbove(warm.history, warmUp, cfg.target);
    OverloadedFrom(cfg, warm, p99s);
    end := RecordAll(cfg, warm, p99s);
  }

  /** Sustained low latency: whatever the tuner saw before, once warm a size below the maximum
      climbs to it if and only if a growth step is worth a whole item there. */
  lemma SustainedLowLatency(cfg: Config, t: Tuner, warmUp: seq<real>, p99s: seq<real>) returns (warm: Tuner, end: Tuner)
    requires Sane(cfg) && cfg.target > 0.0 && cfg.min <= t.size <= cfg.max && |t.history| <= cfg.historySize
    requires Warm(cfg, t.history, warmUp)
    requires AllBelow(warmUp, cfg.target * 0.8) && AllBelow(p99s, cfg.target * 0.8)
    ensures warm == RecordAll(cfg, t, warmUp) && end == RecordAll(cfg, warm, p99s)
    ensures warm.size < cfg.max ==>
              Climbed(cfg, warm.size, end.size, |p99s|) && EndsAtMaxIffMoving(cfg, warm.size, end.size, |p99s|)
  {
    warm := Warmed(cfg, t, warmUp);
    MembersAbove(warm.history, warmUp, cfg.target * 0.8);
    if warm.size < cfg.max {
      FastFrom(cfg, warm, p99s);
    }
    end := RecordAll(cfg, warm, p99s);
  }

  /** With a factor of a fifth, four items stay four items however fast they are. */
  lemma SmallBatchesStall(p99s: seq<real>)
    requires AllBelow(p99s, 8.0)
    ensures RecordAll(Config(10.0, 1, 1000, 10, 0.2), Tuner(4, [1.0, 1.0], 2, 0), p99s).size == 4
  {
    var cfg, t := Config(10.0, 1, 1000, 10, 0.2), Tuner(4, [1.0, 1.0], 2, 0);
    assert cfg.target * 0.8 == 8.0;
    FastFrom(cfg, t, p99s);
  }

  // ----- the tuner object -----

  lemma TooFewSamples(cfg: Config, size: int, history: seq<real>)
    requires |history| < 3
    ensures Recommended(cfg, size, history) == size
  {
  }

  method MeanOf(values: seq<real>) returns (mean: real)
    requires values != []
    ensures mean == Mean(values)
  {
    var sum := 0.0;
    for i := 0 to |values|
      invariant sum == Sum(values[..i])
    {
      assert values[..i + 1][..|values[..i + 1]| - 1] == values[..i];
      sum := sum + values[i];
    }
    assert values[..|values|] == values;
    mean := sum / |values| as real;
  }

  class BatchAutoTuner {
    const cfg: Config
    var currentBatchSize: int
    var history: seq<real>
    var totalAnalyzed: nat
    var totalAdjustments: nat

    constructor (cfg: Config, initial: int)
      ensures this.cfg == cfg && View() == Tuner(Clamp(cfg, initial), [], 0, 0)
    {
      this.cfg := cfg;
      currentBatchSize, history, totalAnalyzed, totalAdjustments := Clamp(cfg, initial), [], 0, 0;
    }

    function View(): Tuner
      reads this
    {
      Tuner(currentBatchSize, history, totalAnalyzed, totalAdjustments)
    }

    method RecordBatchPerformance(p99: real)
      requires |history| <= cfg.historySize
      modifies this
      ensures View() == Record(cfg, old(View()), p99) && |history| <= cfg.historySize
    {
      Append(p99);
      totalAnalyzed := totalAnalyzed + 1;
      if |history| >= (if 3 < cfg.historySize then 3 else cfg.historySize) {
        UpdateRecommendation();
      } else {
        TooFewSamples(cfg, currentBatchSize, history);
      }
    }

    /** The deque's append. */
    method Append(p99: real)
      modifies this`history
      ensures history == Appended(cfg, old(history), p99)
    {
      history := history + [p99];
      if |history| > cfg.historySize {
        history := history[|history| - cfg.historySize..];
      }
    }

    method UpdateRecommendation()
      modifies this`currentBatchSize, this`totalAdjustments
      ensures currentBatchSize == Recommended(cfg, old(currentBatchSize), history)
      ensures totalAdjustments == old(totalAdjustments) + if currentBatchSize != old(currentBatchSize) then 1 else 0
    {
      if |history| < 3 {
        return;
      }
      var average := MeanOf(history);
      var newSize := currentBatchSize;
      if average > cfg.target {
        newSize := Truncate(Scaled(currentBatchSize, 1.0 - cfg.factor));
      } else if average < cfg.target * 0.8 {
        newSize := Truncate(Scaled(currentBatchSize, 1.0 + cfg.factor));
      } else {
        return;
      }
      newSize := Clamp(cfg, newSize);
      if newSize == currentBatchSize {
        return;
      }
      currentBatchSize := newSize;
      totalAdjustments := totalAdjustments + 1;
    }
  }
}
