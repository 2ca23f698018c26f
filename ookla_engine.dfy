/**
 * The arithmetic shared by the download and upload tests: every 750 ms tick turns the
 * bytes counted since the previous tick into one bandwidth sample, computes the test's
 * progress in percent and chooses one of three phase rules (ramp-up, top-up, finish).
 */
module OoklaEngine {
  import opened Wrappers
  import opened OoklaConstants
  import opened OoklaServers

  /** What a tick does after taking its sample. */
  datatype TickAction =
    | Ramp    // open ceil(bandwidth / ratio) - active connections
    | TopUp   // open initial - active connections
    | Finish  // stop the interval, close everything, report
    | Idle    // nothing (the ESM build between 50 % and 99 %)

  /**
   * `Math.min(100, Math.floor(elapsed / (duration * 1000) * 100))` for a test of 15 seconds
   * (`DownloadTestDuration` and `UploadTestDuration` are both 15).
   */
  function Progress(elapsedMs: int): (p: int)
    ensures p <= 100
  {
    var raw := (elapsedMs * 100) / (DownloadTestDuration * 1000);
    if raw < 100 then raw else 100
  }

  /**
   * What a finished transfer test reports (`totalTime` in milliseconds, unrounded); `servers`
   * is absent in the ESM build.
   */
  datatype TransferResult = TransferResult(
    transferredBytes: int,
    latency: Number,
    jitter: Option<Number>,
    speed: Number,
    servers: Option<seq<MeasurementServer>>,
    totalTimeMs: int)

  /** `Math.ceil` on exact reals. */
  function Ceil(x: real): (n: int)
    ensures n as real - 1.0 < x <= n as real
  {
    if x.Floor as real == x then x.Floor else x.Floor + 1
  }

  /** `sampleBytes / (elapsed / 1000)`: bytes per second over the last sampling period. */
  function Bandwidth(sampleBytes: int, elapsedMs: int): real
    requires elapsedMs > 0
  {
    sampleBytes as real / (elapsedMs as real / 1000.0)
  }

  /**
   * The number of connections the ramp-up rule asks for: `Math.ceil(bandwidth / ratio)`,
   * with `DOWNLOAD_TEST_SCALING_RATIO` or `UPLOAD_TEST_SCALING_RATIO`.
   */
  function ScalingTarget(bandwidth: real, ratio: real): int
    requires ratio > 0.0
  {
    Ceil(bandwidth / ratio)
  }

  /**
   * The phase rule of a tick. The TypeScript source ramps below 50 %, tops up below 100 %
   * and finishes at 100 %; the CommonJS build ramps a single-server download only through
   * the top-up rule; the ESM build has no top-up rule.
   */
  function TickPhase(variant: Variant, upload: bool, multi: bool, progress: int): TickAction {
    var ramps := progress < 50 && (variant != CommonJs || upload || multi);
    if ramps then Ramp
    else if variant != Esm && progress < 100 then TopUp
    else if progress == 100 then Finish
    else Idle
  }

  /** The number of connections after trying to open up to `target` of them under `cap`. */
  function AfterOpens(active: int, target: int, cap: int): int {
    if target <= active || cap <= active then active
    else if target < cap then target else cap
  }

  /**
   * Progress is a percentage: never negative once the clock has not gone back, 100 exactly
   * from the test's duration on, below 50 exactly in the first half, and it never decreases.
   */
  lemma ProgressBounds(elapsedMs: int)
    requires elapsedMs >= 0
    ensures 0 <= Progress(elapsedMs) <= 100
    ensures Progress(elapsedMs) == 100 <==> elapsedMs >= DownloadTestDuration * 1000
    ensures Progress(elapsedMs) < 50 <==> elapsedMs < DownloadTestDuration * 500
  {
  }

  lemma ProgressMonotone(a: int, b: int)
    requires a <= b
    ensures Progress(a) <= Progress(b)
  {
  }

  /** The ramp-up target is the least connection count whose share of the ratio covers the bandwidth. */
  lemma ScalingTargetLeast(bandwidth: real, ratio: real, n: int)
    requires ratio > 0.0
    ensures (ScalingTarget(bandwidth, ratio) as real) * ratio >= bandwidth
    ensures (n as real) * ratio >= bandwidth ==> n >= ScalingTarget(bandwidth, ratio)
  {
    var t := ScalingTarget(bandwidth, ratio);
    var q := bandwidth / ratio;
    assert q * ratio == bandwidth;
    if (n as real) * ratio >= bandwidth {
      assert n as real >= q;
    }
  }

  /** A sample is the rate whose product with the period gives back the bytes. */
  lemma BandwidthRate(sampleBytes: int, elapsedMs: int)
    requires elapsedMs > 0
    ensures Bandwidth(sampleBytes, elapsedMs) * (elapsedMs as real) / 1000.0 == sampleBytes as real
    ensures sampleBytes >= 0 ==> Bandwidth(sampleBytes, elapsedMs) >= 0.0
  {
    var e := elapsedMs as real / 1000.0;
    assert Bandwidth(sampleBytes, elapsedMs) * e == sampleBytes as real;
  }

  /**
   * One more attempt after `n` attempts from `active`: it opens a connection below the cap
   * and none at it, which is `m == n + 1` attempts.
   */
  lemma AfterOpensStep(active: int, n: nat, m: nat, cap: int, now: int, next: int)
    requires m == n + 1
    requires now == AfterOpens(active, active + n, cap)
    requires next == AfterOpens(now, now + 1, cap)
    ensures next == AfterOpens(active, active + m, cap)
  {
  }

  /**
   * Trying to open `target - active` connections one by one, each refused at the cap, leaves
   * `max(active, min(target, cap))` open; nothing opens when the difference is not positive.
   */
  lemma AfterOpensMax(active: int, target: int, cap: int)
    ensures AfterOpens(active, target, cap) >= active
    ensures target <= active ==> AfterOpens(active, target, cap) == active
    ensures active <= cap ==> AfterOpens(active, target, cap) <= cap
    ensures var m := if target < cap then target else cap;
            AfterOpens(active, target, cap) == if active < m then m else active
  {
  }

  /** The number of passes of an open loop: `target - active`, none when that is not positive. */
  function Additional(target: int, active: int): nat {
    if target > active then target - active else 0
  }

  /** A loop that runs `Additional(target, active)` attempts ends where `target` says. */
  lemma AfterOpensAdditional(active: int, target: int, cap: int, n: nat)
    requires n == Additional(target, active)
    ensures AfterOpens(active, active + n, cap) == AfterOpens(active, target, cap)
  {
  }

  /**
   * The phase rules per build: every build finishes exactly at 100 %; the ESM build never
   * tops up and idles from 50 % to 99 %; a single-server CommonJS download never ramps; the
   * TypeScript source ramps exactly below 50 %.
   */
  lemma TickPhaseRules(variant: Variant, upload: bool, multi: bool, progress: int)
    requires 0 <= progress <= 100
    ensures TickPhase(variant, upload, multi, progress) == Finish <==> progress == 100
    ensures variant == Esm ==> TickPhase(variant, upload, multi, progress) != TopUp
    ensures variant == Esm && 50 <= progress < 100 ==> TickPhase(variant, upload, multi, progress) == Idle
    ensures variant == CommonJs && !upload && !multi ==> TickPhase(variant, upload, multi, progress) != Ramp
    ensures variant == Current ==> (TickPhase(variant, upload, multi, progress) == Ramp <==> progress < 50)
    ensures variant != Esm ==> TickPhase(variant, upload, multi, progress) != Idle
  {
  }

  /**
   * The sampling state of one transfer test: the bytes counted since the last tick, the
   * bytes already moved into the total, and one bandwidth sample per tick.
   */
  class Sampler {
    const startTime: int
    var lastSampleTime: int
    var sampleBytes: int
    var transferredBytes: int
    var samples: seq<real>
    /** All bytes ever counted. */
    ghost var received: int

    ghost predicate Valid()
      reads this
    {
      transferredBytes + sampleBytes == received && startTime <= lastSampleTime
    }

    constructor(now: int)
      ensures Valid()
      ensures startTime == now && lastSampleTime == now
      ensures sampleBytes == 0 && transferredBytes == 0 && samples == [] && received == 0
    {
      startTime := now;
      lastSampleTime := now;
      sampleBytes := 0;
      transferredBytes := 0;
      samples := [];
      received := 0;
    }

    /** `sampleBytes += n` */
    method AddBytes(n: int)
      requires Valid()
      modifies this
      ensures Valid()
      ensures sampleBytes == old(sampleBytes) + n && received == old(received) + n
      ensures transferredBytes == old(transferredBytes) && samples == old(samples)
      ensures lastSampleTime == old(lastSampleTime)
    {
      sampleBytes := sampleBytes + n;
      received := received + n;
    }

    /**
     * The sampling half of a tick at time `now`: move the counted bytes into the total,
     * append their bandwidth and return it with the progress (the elapsed time since the
     * previous tick is positive; the source divides by it unguarded).
     */
    method Take(now: int) returns (bandwidth: real, progress: int)
      requires Valid() && now > lastSampleTime
      modifies this
      ensures Valid()
      ensures bandwidth == Bandwidth(old(sampleBytes), now - old(lastSampleTime))
      ensures samples == old(samples) + [bandwidth]
      ensures transferredBytes == old(transferredBytes) + old(sampleBytes) && sampleBytes == 0
      ensures received == old(received) && lastSampleTime == now
      ensures progress == Progress(now - startTime) && 0 <= progress <= 100
    {
      var sampleBytesNow := sampleBytes;
      var elapsedSampleTime := now - lastSampleTime;
      bandwidth := Bandwidth(sampleBytesNow, elapsedSampleTime);
      transferredBytes := transferredBytes + sampleBytesNow;
      sampleBytes := sampleBytes - sampleBytesNow;
      lastSampleTime := now;
      samples := samples + [bandwidth];
      var elapsedTotalTime := now - startTime;
      progress := Progress(elapsedTotalTime);
      ProgressBounds(elapsedTotalTime);
    }
  }
}
