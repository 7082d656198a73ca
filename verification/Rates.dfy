/**
 * The rates poller: saturating deltas of cumulative counters, per pid and host-wide.
 * Rates are exact rationals rounded down, capped at what a `u64` can hold.
 */
module Rates {
  import opened Common
  import opened Sums
  import opened IoAccounting

  type Sample = map<Pid, IoStat>

  function SatSub(a: int, b: int): int {
    if a >= b then a - b else 0
  }

  function Add64(a: int, b: int): int {
    (a + b) % U64
  }

  /** An absent pid has counted nothing. */
  function Val(m: Sample, p: Pid, k: Counter): int {
    if p in m then Get(m[p], k) else 0
  }

  function PollDelta(prev: Sample, new_: Sample, p: Pid, k: Counter): int {
    SatSub(Val(new_, p, k), Val(prev, p, k))
  }

  /** The seconds between two polls, never less than a tenth of a millisecond. */
  function Elapsed(prevAt: real, now: real): real {
    if now - prevAt >= 0.0001 then now - prevAt else 0.0001
  }

  function PerSec(bytes: int, elapsed: real): int
    requires elapsed > 0.0
  {
    var exact := Ratio(bytes, elapsed).Floor;
    if exact < U64 then exact else U64 - 1
  }

  ghost function Deltas(prev: Sample, new_: Sample, k: Counter): map<Pid, int> {
    map p | p in new_ :: PollDelta(prev, new_, p, k)
  }

  /** The values of one counter. */
  ghost function Readings(m: Sample, k: Counter): map<Pid, int> {
    map p | p in m :: Get(m[p], k)
  }

  ghost function HostDelta(prev: Sample, new_: Sample, k: Counter): int {
    SumMap(Deltas(prev, new_, k))
  }

  ghost function HostTotal(m: Sample, k: Counter): int {
    SumMap(Readings(m, k))
  }

  ghost predicate Counts(m: Sample) {
    forall p, k | p in m :: 0 <= Get(m[p], k) < U64
  }

  lemma DoneStep(prev: Sample, new_: Sample, left: set<Pid>, p: Pid, k: Counter)
    requires p in left && left <= new_.Keys
    ensures SumMap(Done(prev, new_, left - {p}, k)) == SumMap(Done(prev, new_, left, k)) + PollDelta(prev, new_, p, k)
  {
    SumMapUpdate(Done(prev, new_, left, k), p, PollDelta(prev, new_, p, k));
    assert Done(prev, new_, left - {p}, k) == Done(prev, new_, left, k)[p := PollDelta(prev, new_, p, k)];
  }

  ghost function Done(prev: Sample, new_: Sample, left: set<Pid>, k: Counter): map<Pid, int> {
    map p | p in new_ && p !in left :: PollDelta(prev, new_, p, k)
  }

  lemma ModAdd(x: int, d: int)
    ensures Add64(x % U64, d) == (x + d) % U64
  {
  }

  /** The four accumulators hold the deltas of the pids visited so far, as `u64`s. */
  ghost predicate Accumulated(acc: IoStat, prev: Sample, new_: Sample, left: set<Pid>) {
    forall k :: Get(acc, k) == SumMap(Done(prev, new_, left, k)) % U64
  }

  function StatDelta(new_: IoStat, prev: IoStat): IoStat {
    IoStat(SatSub(new_.fileRead, prev.fileRead), SatSub(new_.fileWrite, prev.fileWrite),
           SatSub(new_.netRx, prev.netRx), SatSub(new_.netTx, prev.netTx))
  }

  lemma AccumulateOne(acc: IoStat, d: IoStat, prev: Sample, new_: Sample, left: set<Pid>, p: Pid)
    requires Accumulated(acc, prev, new_, left) && p in left && left <= new_.Keys
    requires forall k :: Get(d, k) == PollDelta(prev, new_, p, k)
    ensures Accumulated(IoStat(Add64(acc.fileRead, d.fileRead), Add64(acc.fileWrite, d.fileWrite),
                               Add64(acc.netRx, d.netRx), Add64(acc.netTx, d.netTx)), prev, new_, left - {p})
  {
    var sum := IoStat(Add64(acc.fileRead, d.fileRead), Add64(acc.fileWrite, d.fileWrite),
                      Add64(acc.netRx, d.netRx), Add64(acc.netTx, d.netTx));
    forall k ensures Get(sum, k) == SumMap(Done(prev, new_, left - {p}, k)) % U64 {
      DoneStep(prev, new_, left, p, k);
      assert Get(sum, k) == Add64(Get(acc, k), Get(d, k));
      ModAdd(SumMap(Done(prev, new_, left, k)), Get(d, k));
    }
  }

  function PerSecs(d: IoStat, elapsed: real): IoStat
    requires elapsed > 0.0
  {
    IoStat(PerSec(d.fileRead, elapsed), PerSec(d.fileWrite, elapsed), PerSec(d.netRx, elapsed), PerSec(d.netTx, elapsed))
  }

  lemma PerSecsEach(d: IoStat, elapsed: real, k: Counter)
    requires elapsed > 0.0
    ensures Get(PerSecs(d, elapsed), k) == PerSec(Get(d, k), elapsed)
  {
  }

  lemma StatDeltaEach(prev: Sample, new_: Sample, p: Pid, k: Counter)
    requires p in new_
    ensures Get(StatDelta(new_[p], if p in prev then prev[p] else NO_IO), k) == PollDelta(prev, new_, p, k)
  {
  }

  /** `rate` is `bytes` over `secs`, rounded down and capped at what a `u64` holds. */
  ghost predicate IsRate(rate: int, bytes: int, secs: real) {
    && 0 <= rate < U64
    && rate as real * secs <= bytes as real
    && (rate < U64 - 1 ==> bytes as real < (rate + 1) as real * secs)
  }

  lemma RatioTimes(bytes: int, e: real)
    requires e > 0.0
    ensures Ratio(bytes, e) * e == bytes as real
  {
  }

  lemma ProductPositive(x: real, e: real)
    requires e > 0.0 && x >= 0.0
    ensures x * e >= 0.0 && (x > 0.0 ==> x * e > 0.0)
  {
  }

  lemma TimesMonotone(a: real, b: real, e: real)
    requires e > 0.0 && a <= b
    ensures a * e <= b * e && (a < b ==> a * e < b * e)
  {
    ProductPositive(b - a, e);
    assert (b - a) * e == b * e - a * e;
  }

  lemma RateFrom(exact: real, rate: int, bytes: int, e: real)
    requires e > 0.0 && exact * e == bytes as real && 0 <= rate < U64
    requires rate as real <= exact && (rate < U64 - 1 ==> exact < (rate + 1) as real)
    ensures IsRate(rate, bytes, e)
  {
    TimesMonotone(rate as real, exact, e);
    if rate < U64 - 1 {
      TimesMonotone(exact, (rate + 1) as real, e);
    }
  }

  lemma PerSecIsRate(bytes: int, e: real)
    requires e > 0.0 && 0 <= bytes
    ensures IsRate(PerSec(bytes, e), bytes, e)
  {
    RatioTimes(bytes, e);
    RateNonNegative(bytes, e);
    RateFrom(Ratio(bytes, e), PerSec(bytes, e), bytes, e);
  }

  lemma NotBelow(a: int, b: int, bytes: int, secs: real)
    requires secs > 0.0 && IsRate(a, bytes, secs) && IsRate(b, bytes, secs)
    ensures a >= b
  {
    if a < b {
      TimesMonotone((a + 1) as real, b as real, secs);
      assert false;
    }
  }

  /** That determines the rate. */
  lemma OneRate(a: int, b: int, bytes: int, secs: real)
    requires secs > 0.0 && IsRate(a, bytes, secs) && IsRate(b, bytes, secs)
    ensures a == b
  {
    NotBelow(a, b, bytes, secs);
    NotBelow(b, a, bytes, secs);
  }

  /** The published rates of every pid and of the host are over the time since the previous poll. */
  ghost predicate OverTheInterval(perPid: Sample, host: IoStat, prev: Sample, new_: Sample, secs: real) {
    && (forall p, k | p in new_ && p in perPid :: IsRate(Get(perPid[p], k), PollDelta(prev, new_, p, k), secs))
    && forall k :: IsRate(Get(host, k), HostDelta(prev, new_, k) % U64, secs)
  }

  lemma RatesAreOverTheInterval(perPid: Sample, host: IoStat, prev: Sample, new_: Sample, e: real)
    requires e > 0.0 && perPid.Keys == new_.Keys
    requires forall p, k | p in new_ :: Get(perPid[p], k) == PerSec(PollDelta(prev, new_, p, k), e)
    requires forall k :: Get(host, k) == PerSec(HostDelta(prev, new_, k) % U64, e)
    ensures OverTheInterval(perPid, host, prev, new_, e)
  {
    forall p, k | p in new_ && p in perPid ensures IsRate(Get(perPid[p], k), PollDelta(prev, new_, p, k), e) {
      PerSecIsRate(PollDelta(prev, new_, p, k), e);
    }
    forall k ensures IsRate(Get(host, k), HostDelta(prev, new_, k) % U64, e) {
      PerSecIsRate(HostDelta(prev, new_, k) % U64, e);
    }
  }

  method ComputeRates(prevIo: Sample, newIo: Sample, prevAt: Option<real>, now: real)
    returns (cumulative: Sample, perPid: Sample, host: IoStat)
    ensures cumulative == newIo
    ensures prevAt.None? ==> perPid == map[] && host == NO_IO
    ensures prevAt.Some? ==> var e := Elapsed(prevAt.value, now);
      && perPid.Keys == newIo.Keys
      && (forall p, k | p in newIo :: Get(perPid[p], k) == PerSec(PollDelta(prevIo, newIo, p, k), e))
      && (forall k :: Get(host, k) == PerSec(HostDelta(prevIo, newIo, k) % U64, e))
    ensures prevAt.Some? ==>
      OverTheInterval(perPid, host, prevIo, newIo, if now - prevAt.value >= 0.0001 then now - prevAt.value else 0.0001)
  {
    cumulative := newIo;
    perPid := map[];
    host := NO_IO;
    if prevAt.Some? {
      var elapsed := Elapsed(prevAt.value, now);
      var rd, wr, rx, tx := 0, 0, 0, 0;
      var left := newIo.Keys;
      forall k ensures SumMap(Done(prevIo, newIo, left, k)) == 0 {
        assert Done(prevIo, newIo, left, k) == map[];
      }
      while left != {}
        invariant left <= newIo.Keys && perPid.Keys == newIo.Keys - left
        invariant forall p, k | p in perPid :: Get(perPid[p], k) == PerSec(PollDelta(prevIo, newIo, p, k), elapsed)
        invariant Accumulated(IoStat(rd, wr, rx, tx), prevIo, newIo, left)
        decreases left
      {
        var pid :| pid in left;
        var d := StatDelta(newIo[pid], if pid in prevIo then prevIo[pid] else NO_IO);
        forall k ensures Get(d, k) == PollDelta(prevIo, newIo, pid, k) {
          StatDeltaEach(prevIo, newIo, pid, k);
        }
        AccumulateOne(IoStat(rd, wr, rx, tx), d, prevIo, newIo, left, pid);
        rd, wr := Add64(rd, d.fileRead), Add64(wr, d.fileWrite);
        rx, tx := Add64(rx, d.netRx), Add64(tx, d.netTx);
        var rate := PerSecs(d, elapsed);
        forall k ensures Get(rate, k) == PerSec(PollDelta(prevIo, newIo, pid, k), elapsed) {
          PerSecsEach(d, elapsed, k);
        }
        perPid := perPid[pid := rate];
        left := left - {pid};
      }
      host := PerSecs(IoStat(rd, wr, rx, tx), elapsed);
      forall k ensures Get(host, k) == PerSec(HostDelta(prevIo, newIo, k) % U64, elapsed) {
        PerSecsEach(IoStat(rd, wr, rx, tx), elapsed, k);
        assert Done(prevIo, newIo, {}, k) == Deltas(prevIo, newIo, k);
      }
      RatesAreOverTheInterval(perPid, host, prevIo, newIo, elapsed);
    }
  }

  // ---------------------------------------------------------------------------------
  // No accumulator overflows while the counters together fit.

  /** Whatever part of the map has been visited, the accumulator is within the host total. */
  lemma AccumulatorsFit(prev: Sample, new_: Sample, left: set<Pid>, k: Counter)
    requires Counts(prev) && Counts(new_) && left <= new_.Keys && HostTotal(new_, k) < U64
    ensures 0 <= SumMap(Done(prev, new_, left, k)) < U64
  {
    var done := Done(prev, new_, left, k);
    var padded := map p | p in new_ :: if p in done then done[p] else 0;
    SumMapNonNegative(done);
    SumMapPadded(done, padded);
    SumMapMonotone(padded, Readings(new_, k));
  }

  lemma HostDeltaFits(prev: Sample, new_: Sample, k: Counter)
    requires Counts(prev) && Counts(new_) && HostTotal(new_, k) < U64
    ensures 0 <= HostDelta(prev, new_, k) < U64
  {
    AccumulatorsFit(prev, new_, {}, k);
    assert Done(prev, new_, {}, k) == Deltas(prev, new_, k);
  }

  // ---------------------------------------------------------------------------------
  // Published rates.

  /** Bytes over seconds. */
  function Ratio(bytes: int, e: real): real
    requires e > 0.0
  {
    bytes as real / e
  }

  lemma RatioAdd(a: int, b: int, e: real)
    requires e > 0.0
    ensures Ratio(a + b, e) == Ratio(a, e) + Ratio(b, e)
    ensures Ratio(0, e) == 0.0 && (b >= 0 ==> Ratio(b, e) >= 0.0)
  {
  }

  ghost function Floors(m: map<Pid, int>, e: real): map<Pid, int>
    requires e > 0.0
  {
    map p | p in m :: Ratio(m[p], e).Floor
  }

  lemma RoundOneMore(d: int, rest: int, floors: int, n: nat, e: real)
    requires e > 0.0 && floors as real <= Ratio(rest, e)
    requires if n == 0 then rest == 0 && floors == 0 else Ratio(rest, e) < (floors + n) as real
    ensures (Ratio(d, e).Floor + floors) as real <= Ratio(d + rest, e) < (Ratio(d, e).Floor + floors + n + 1) as real
  {
    RatioAdd(d, rest, e);
  }

  /** Rounding each part down loses less than one per part. */
  lemma {:induction false} FloorsOfParts(m: map<Pid, int>, e: real)
    requires e > 0.0
    ensures SumMap(Floors(m, e)) as real <= Ratio(SumMap(m), e)
    ensures if |m| == 0 then SumMap(Floors(m, e)) == 0 && SumMap(m) == 0
            else Ratio(SumMap(m), e) < (SumMap(Floors(m, e)) + |m|) as real
    decreases |m|
  {
    if |m| == 0 {
      assert m == map[] && Floors(m, e) == map[];
      RatioAdd(0, 0, e);
    } else {
      var p :| p in m;
      var rest := m - {p};
      assert rest.Keys == m.Keys - {p} && |rest| == |m| - 1;
      FloorsOfParts(rest, e);
      SumMapRemove(m, p);
      SumMapRemove(Floors(m, e), p);
      assert Floors(m, e) - {p} == Floors(rest, e);
      RoundOneMore(m[p], SumMap(rest), SumMap(Floors(rest, e)), |rest|, e);
    }
  }

  /** `rates` are what is published for each pid. */
  ghost predicate Published(prev: Sample, new_: Sample, k: Counter, e: real, rates: map<Pid, int>)
    requires e > 0.0
  {
    rates.Keys == new_.Keys && forall p | p in new_ :: rates[p] == PerSec(PollDelta(prev, new_, p, k), e)
  }

  /** The host rate is never more than the per-pid rates together, but for one byte per pid after the first. */
  lemma HostRateIsAccountedFor(prev: Sample, new_: Sample, k: Counter, e: real, rates: map<Pid, int>)
    requires e > 0.0 && Counts(prev) && Counts(new_) && HostTotal(new_, k) < U64
    requires Published(prev, new_, k, e, rates)
    ensures |new_| > 0 ==> PerSec(HostDelta(prev, new_, k) % U64, e) <= SumMap(rates) + |new_| - 1
  {
    var d := Deltas(prev, new_, k);
    assert d.Keys == new_.Keys && |d| == |new_|;
    HostDeltaFits(prev, new_, k);
    if |new_| > 0 {
      LowerBound(d, e, rates);
    }
  }

  /** At most one pid has a rate to show. */
  ghost predicate OneBusyPid(d: map<Pid, int>, e: real)
    requires e > 0.0
  {
    forall p, q | p in d && q in d && p != q :: Ratio(d[p], e).Floor == 0 || Ratio(d[q], e).Floor == 0
  }

  /**
   * The per-pid rates together never exceed the host rate exactly when the host rate is below its cap, or the
   * rounded rates still fit in a `u64` together, or at most one pid has one.
   */
  lemma RatesAddUp(prev: Sample, new_: Sample, k: Counter, e: real, rates: map<Pid, int>)
    requires e > 0.0 && Counts(prev) && Counts(new_) && HostTotal(new_, k) < U64
    requires Published(prev, new_, k, e, rates)
    ensures var d := Deltas(prev, new_, k);
      SumMap(rates) <= PerSec(HostDelta(prev, new_, k) % U64, e)
      <==> Ratio(SumMap(d), e).Floor < U64 || SumMap(Floors(d, e)) < U64 || OneBusyPid(d, e)
    ensures SumMap(rates) <= PerSec(HostDelta(prev, new_, k) % U64, e) <==> SumMap(rates) < U64
  {
    var d := Deltas(prev, new_, k);
    assert d.Keys == new_.Keys;
    HostDeltaFits(prev, new_, k);
    UpperBoundExactly(d, e, rates);
  }

  lemma UpperBoundExactly(d: map<Pid, int>, e: real, rates: map<Pid, int>)
    requires e > 0.0 && rates.Keys == d.Keys && 0 <= SumMap(d) < U64
    requires forall p | p in d :: 0 <= d[p] && rates[p] == PerSec(d[p], e)
    ensures SumMap(rates) <= PerSec(SumMap(d) % U64, e) <==> SumMap(rates) < U64
    ensures SumMap(rates) < U64 <==> Ratio(SumMap(d), e).Floor < U64 || SumMap(Floors(d, e)) < U64 || OneBusyPid(d, e)
  {
    assert SumMap(d) % U64 == SumMap(d);
    forall p | p in d ensures 0 <= rates[p] < U64 && 0 <= Ratio(d[p], e).Floor {
      RateNonNegative(d[p], e);
    }
    if Ratio(SumMap(d), e).Floor < U64 {
      RatesOfMap(d, e, rates);
    }
    FittingRates(d, e, rates);
  }

  /** Capped parts fit together exactly when the parts do, or only one of them counts. */
  lemma FittingRates(d: map<Pid, int>, e: real, rates: map<Pid, int>)
    requires e > 0.0 && rates.Keys == d.Keys
    requires forall p | p in d :: 0 <= Ratio(d[p], e).Floor && rates[p] == PerSec(d[p], e)
    ensures SumMap(Floors(d, e)) < U64 || OneBusyPid(d, e) ==> SumMap(rates) < U64
    ensures SumMap(rates) < U64 ==> SumMap(Floors(d, e)) < U64 || OneBusyPid(d, e)
  {
    if SumMap(Floors(d, e)) < U64 {
      PartsWithinSum(Floors(d, e));
      assert rates == Floors(d, e);
    } else if OneBusyPid(d, e) {
      OnePart(rates);
    } else if SumMap(rates) < U64 {
      TwoParts(d, e, rates);
    }
  }

  lemma PartsWithinSum(m: map<Pid, int>)
    requires forall p | p in m :: 0 <= m[p]
    ensures forall p | p in m :: m[p] <= SumMap(m)
  {
    forall p | p in m ensures m[p] <= SumMap(m) {
      SumMapRemove(m, p);
      SumMapNonNegative(m - {p});
    }
  }

  lemma OnePart(m: map<Pid, int>)
    requires forall p | p in m :: 0 <= m[p] < U64
    requires forall p, q | p in m && q in m && p != q :: m[p] == 0 || m[q] == 0
    ensures SumMap(m) < U64
  {
    var zeros: map<Pid, int> := map p | p in m && m[p] == 0 :: 0;
    SumMapPadded(map[], zeros);
    if p :| p in m && m[p] != 0 {
      SumMapRemove(m, p);
      assert m - {p} == zeros;
    } else {
      assert m == zeros;
    }
  }

  lemma TwoParts(d: map<Pid, int>, e: real, rates: map<Pid, int>)
    requires e > 0.0 && rates.Keys == d.Keys && U64 <= SumMap(Floors(d, e)) && !OneBusyPid(d, e)
    requires forall p | p in d :: 0 <= Ratio(d[p], e).Floor && rates[p] == PerSec(d[p], e)
    ensures U64 <= SumMap(rates)
  {
    if c :| c in d && Ratio(d[c], e).Floor >= U64 {
      var p, q :| p in d && q in d && p != q && Ratio(d[p], e).Floor != 0 && Ratio(d[q], e).Floor != 0;
      var other := if p == c then q else p;
      SumMapRemove(rates, c);
      PartsWithinSum(rates - {c});
      assert rates[c] == U64 - 1 && other in rates - {c} && (rates - {c})[other] >= 1;
    } else {
      assert rates == Floors(d, e);
    }
  }

  lemma RateNonNegative(bytes: int, e: real)
    requires e > 0.0 && 0 <= bytes
    ensures 0 <= PerSec(bytes, e) < U64
  {
    RatioAdd(0, bytes, e);
  }

  /** One capped pid makes up for the whole host. */
  lemma CappedPart(rates: map<Pid, int>, p: Pid)
    requires p in rates && rates[p] == U64 - 1 && forall q | q in rates :: 0 <= rates[q]
    ensures U64 - 1 <= SumMap(rates)
  {
    SumMapRemove(rates, p);
    SumMapNonNegative(rates - {p});
  }

  lemma UncappedParts(d: map<Pid, int>, e: real, rates: map<Pid, int>)
    requires e > 0.0 && |d| > 0 && rates == Floors(d, e)
    ensures Ratio(SumMap(d), e).Floor <= SumMap(rates) + |d| - 1
  {
    FloorsOfParts(d, e);
    RoundedWhole(SumMap(d), SumMap(rates), |d|, e);
  }

  lemma NoneCapped(d: map<Pid, int>, e: real, rates: map<Pid, int>)
    requires e > 0.0 && rates.Keys == d.Keys
    requires forall p | p in d :: rates[p] == PerSec(d[p], e) && rates[p] != U64 - 1
    ensures rates == Floors(d, e)
  {
  }

  lemma LowerBound(d: map<Pid, int>, e: real, rates: map<Pid, int>)
    requires e > 0.0 && rates.Keys == d.Keys && 0 <= SumMap(d) < U64 && |d| > 0
    requires forall p | p in d :: 0 <= d[p] && rates[p] == PerSec(d[p], e)
    ensures PerSec(SumMap(d) % U64, e) <= SumMap(rates) + |d| - 1
  {
    RateNonNegative(SumMap(d), e);
    assert SumMap(d) % U64 == SumMap(d);
    if p :| p in d && rates[p] == U64 - 1 {
      forall q | q in rates ensures 0 <= rates[q] {
        RateNonNegative(d[q], e);
      }
      CappedPart(rates, p);
    } else {
      NoneCapped(d, e, rates);
      UncappedParts(d, e, rates);
    }
  }

  lemma RatesOfMap(d: map<Pid, int>, e: real, rates: map<Pid, int>)
    requires e > 0.0 && rates.Keys == d.Keys && 0 <= SumMap(d) < U64 && Ratio(SumMap(d), e).Floor < U64
    requires forall p | p in d :: 0 <= d[p] && rates[p] == PerSec(d[p], e)
    ensures SumMap(rates) <= PerSec(SumMap(d), e) < U64
  {
    UncappedRates(d, e, rates);
    FloorsOfParts(d, e);
    RoundedWhole(SumMap(d), SumMap(Floors(d, e)), |d|, e);
  }

  /** Below the cap, the published rates are the parts rounded down. */
  lemma UncappedRates(d: map<Pid, int>, e: real, rates: map<Pid, int>)
    requires e > 0.0 && rates.Keys == d.Keys && Ratio(SumMap(d), e).Floor < U64
    requires forall p | p in d :: 0 <= d[p] && rates[p] == PerSec(d[p], e)
    ensures rates == Floors(d, e)
  {
    forall p | p in d ensures rates[p] == Floors(d, e)[p] {
      PartWithinWhole(d, p, e);
    }
  }

  lemma RoundedWhole(total: int, floors: int, n: nat, e: real)
    requires e > 0.0 && floors as real <= Ratio(total, e)
    requires n > 0 ==> Ratio(total, e) < (floors + n) as real
    ensures floors <= Ratio(total, e).Floor && (n > 0 ==> Ratio(total, e).Floor <= floors + n - 1)
  {
  }

  lemma PartWithinWhole(m: map<Pid, int>, p: Pid, e: real)
    requires e > 0.0 && p in m && forall q | q in m :: 0 <= m[q]
    ensures Ratio(m[p], e).Floor <= Ratio(SumMap(m), e).Floor
  {
    SumMapRemove(m, p);
    SumMapNonNegative(m - {p});
    RatioAdd(m[p], SumMap(m - {p}), e);
  }

  /** Beyond the cap they need not: two busy pids out-publish the host. */
  lemma CapBreaksTheSum(p: Pid, q: Pid)
    requires p != q
    ensures var x := 0x7FFF_FFFF_FFFF_FFFF;
      var new_: Sample := map[p := IoStat(x, 0, 0, 0), q := IoStat(x, 0, 0, 0)];
      && HostTotal(new_, FileRead) < U64
      && PerSec(PollDelta(map[], new_, p, FileRead), 0.5) + PerSec(PollDelta(map[], new_, q, FileRead), 0.5)
         > PerSec(HostDelta(map[], new_, FileRead) % U64, 0.5)
  {
    var x := 0x7FFF_FFFF_FFFF_FFFF;
    var new_: Sample := map[p := IoStat(x, 0, 0, 0), q := IoStat(x, 0, 0, 0)];
    var one: map<Pid, int> := map[p := x];
    SumMapUpdate(map[], p, x);
    SumMapUpdate(one, q, x);
    assert Readings(new_, FileRead) == one[q := x];
    assert Deltas(map[], new_, FileRead) == one[q := x];
    assert map[][p := x] == one;
  }

  // ---------------------------------------------------------------------------------
  // Telescoping.

  function SumDeltas(polls: seq<Sample>, p: Pid, k: Counter): int {
    if |polls| < 2 then 0 else PollDelta(polls[0], polls[1], p, k) + SumDeltas(polls[1..], p, k)
  }

  ghost predicate Monotone(polls: seq<Sample>, p: Pid, k: Counter) {
    forall i | 0 < i < |polls| :: Val(polls[i - 1], p, k) <= Val(polls[i], p, k)
  }

  /** The deltas of a pid cover its growth, exactly if and only if it never went down. */
  lemma {:induction false} DeltasTelescope(polls: seq<Sample>, p: Pid, k: Counter)
    requires polls != []
    ensures SumDeltas(polls, p, k) >= Val(polls[|polls| - 1], p, k) - Val(polls[0], p, k)
    ensures SumDeltas(polls, p, k) == Val(polls[|polls| - 1], p, k) - Val(polls[0], p, k) <==> Monotone(polls, p, k)
  {
    if |polls| > 1 {
      var rest := polls[1..];
      DeltasTelescope(rest, p, k);
      assert Monotone(polls, p, k) <==> Monotone(rest, p, k) && Val(polls[0], p, k) <= Val(polls[1], p, k) by {
        if Monotone(rest, p, k) && Val(polls[0], p, k) <= Val(polls[1], p, k) {
          forall i | 0 < i < |polls| ensures Val(polls[i - 1], p, k) <= Val(polls[i], p, k) {
            if i > 1 {
              assert rest[i - 2] == polls[i - 1] && rest[i - 1] == polls[i];
              assert Val(rest[i - 1 - 1], p, k) <= Val(rest[i - 1], p, k);
            }
          }
        }
        if Monotone(polls, p, k) {
          assert Val(polls[1 - 1], p, k) <= Val(polls[1], p, k);
          forall i | 0 < i < |rest| ensures Val(rest[i - 1], p, k) <= Val(rest[i], p, k) {
            assert Val(polls[i + 1 - 1], p, k) <= Val(polls[i + 1], p, k);
          }
        }
      }
    }
  }

  ghost function SumHostDeltas(polls: seq<Sample>, k: Counter): int {
    if |polls| < 2 then 0 else HostDelta(polls[0], polls[1], k) + SumHostDeltas(polls[1..], k)
  }

  ghost function Over(m: Sample, keys: set<Pid>, k: Counter): map<Pid, int> {
    map p | p in keys :: Val(m, p, k)
  }

  ghost function Drop(prev: Sample, new_: Sample, k: Counter): map<Pid, int> {
    map p | p in prev.Keys + new_.Keys :: SatSub(Val(prev, p, k), Val(new_, p, k))
  }

  /** The deltas, padded with zeros for pids that are gone. */
  ghost function AllDeltas(prev: Sample, new_: Sample, k: Counter): map<Pid, int> {
    map p | p in prev.Keys + new_.Keys :: PollDelta(prev, new_, p, k)
  }

  lemma PaddedTotals(prev: Sample, new_: Sample, k: Counter)
    requires Counts(prev) && Counts(new_)
    ensures var keys := prev.Keys + new_.Keys;
      && SumMap(AllDeltas(prev, new_, k)) == HostDelta(prev, new_, k)
      && SumMap(Over(prev, keys, k)) == HostTotal(prev, k)
      && SumMap(Over(new_, keys, k)) == HostTotal(new_, k)
  {
    var keys := prev.Keys + new_.Keys;
    SumMapPadded(Deltas(prev, new_, k), AllDeltas(prev, new_, k));
    SumMapPadded(Readings(prev, k), Over(prev, keys, k));
    SumMapPadded(Readings(new_, k), Over(new_, keys, k));
  }

  lemma HostDeltaPlusBefore(prev: Sample, new_: Sample, k: Counter)
    requires Counts(prev) && Counts(new_)
    ensures HostDelta(prev, new_, k) + HostTotal(prev, k) == HostTotal(new_, k) + SumMap(Drop(prev, new_, k))
  {
    var keys := prev.Keys + new_.Keys;
    PaddedTotals(prev, new_, k);
    SumMapBalance(AllDeltas(prev, new_, k), Over(prev, keys, k), Over(new_, keys, k), Drop(prev, new_, k));
  }

  lemma NoDropsIffMonotone(prev: Sample, new_: Sample, k: Counter)
    requires Counts(prev) && Counts(new_)
    ensures SumMap(Drop(prev, new_, k)) >= 0
    ensures SumMap(Drop(prev, new_, k)) == 0 <==> forall p :: Val(prev, p, k) <= Val(new_, p, k)
  {
    var drop := Drop(prev, new_, k);
    var zeros: map<Pid, int> := map p | p in drop :: 0;
    SumMapPadded(map[], zeros);
    SumMapMonotone(zeros, drop);
    if forall p :: Val(prev, p, k) <= Val(new_, p, k) {
      assert drop == zeros;
    }
    if drop == zeros {
      forall p ensures Val(prev, p, k) <= Val(new_, p, k) {
        if p in prev.Keys + new_.Keys {
          assert drop[p] == zeros[p];
        }
      }
    }
  }

  /** One poll counts the host's growth plus every drop it could not see. */
  lemma HostDeltaIsGrowthPlusDrops(prev: Sample, new_: Sample, k: Counter)
    requires Counts(prev) && Counts(new_)
    ensures HostDelta(prev, new_, k) >= HostTotal(new_, k) - HostTotal(prev, k)
    ensures HostDelta(prev, new_, k) == HostTotal(new_, k) - HostTotal(prev, k)
       <==> forall p :: Val(prev, p, k) <= Val(new_, p, k)
  {
    HostDeltaPlusBefore(prev, new_, k);
    NoDropsIffMonotone(prev, new_, k);
  }

  /** Host-wide: the deltas cover the growth since the first poll, exactly iff no pid went down. */
  lemma {:induction false} HostDeltasTelescope(polls: seq<Sample>, k: Counter)
    requires polls != [] && forall i | 0 <= i < |polls| :: Counts(polls[i])
    ensures SumHostDeltas(polls, k) >= HostTotal(polls[|polls| - 1], k) - HostTotal(polls[0], k)
    ensures SumHostDeltas(polls, k) == HostTotal(polls[|polls| - 1], k) - HostTotal(polls[0], k)
       <==> forall p :: Monotone(polls, p, k)
  {
    if |polls| > 1 {
      var rest := polls[1..];
      HostDeltasTelescope(rest, k);
      HostDeltaIsGrowthPlusDrops(polls[0], polls[1], k);
      forall p ensures Monotone(polls, p, k) <==> Monotone(rest, p, k) && Val(polls[0], p, k) <= Val(polls[1], p, k) {
        DeltasTelescope(polls, p, k);
        DeltasTelescope(rest, p, k);
      }
    }
  }

  // ---------------------------------------------------------------------------------
  // The polling loop.

  datatype RateSnapshot = RateSnapshot(cumulativeIo: Sample, perPidRates: Sample, hostRates: IoStat)

  class Poller {
    var prevIo: Sample
    var prevAt: Option<real>
    var snapshot: RateSnapshot
    /** Every sample taken so far. */
    ghost var polls: seq<Sample>

    ghost predicate Valid()
      reads this
    {
      if prevAt.None? then polls == [] && prevIo == map[]
      else polls != [] && prevIo == polls[|polls| - 1]
    }

    constructor ()
      ensures Valid() && polls == [] && prevAt == None
    {
      prevIo := map[];
      prevAt := None;
      snapshot := RateSnapshot(map[], map[], NO_IO);
      polls := [];
    }

    /** One tick; a failed read arrives as an empty sample. */
    method Tick(newIo: Sample, now: real)
      requires Valid()
      modifies this
      ensures Valid() && polls == old(polls) + [newIo] && prevAt == Some(now)
      ensures snapshot.cumulativeIo == newIo
      ensures old(polls) == [] ==> snapshot.perPidRates == map[] && snapshot.hostRates == NO_IO
      ensures old(polls) != [] ==> var prev := old(polls)[|old(polls)| - 1];
        && old(prevAt).Some?
        && snapshot.perPidRates.Keys == newIo.Keys
        && (forall p, k | p in newIo ::
              Get(snapshot.perPidRates[p], k) == PerSec(PollDelta(prev, newIo, p, k), Elapsed(old(prevAt).value, now)))
        && (forall k :: Get(snapshot.hostRates, k) == PerSec(HostDelta(prev, newIo, k) % U64, Elapsed(old(prevAt).value, now)))
      ensures old(polls) != [] ==>
        && old(prevAt).Some?
        && OverTheInterval(snapshot.perPidRates, snapshot.hostRates, old(polls)[|old(polls)| - 1], newIo,
                           if now - old(prevAt).value >= 0.0001 then now - old(prevAt).value else 0.0001)
    {
      var cumulative, perPid, host := ComputeRates(prevIo, newIo, prevAt, now);
      prevIo := newIo;
      prevAt := Some(now);
      snapshot := RateSnapshot(cumulative, perPid, host);
      polls := polls + [newIo];
    }
  }
}
