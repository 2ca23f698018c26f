/**
 * `startUploadStatsListener` and `measureUploadSpeed`: the server reports the cumulative
 * number of bytes it has received on a statistics socket; the listener turns the counter
 * into deltas that feed the sampler. A first report with no counter signals readiness, and
 * only then does the upload controller open its connections to the best server.
 */
module OoklaUpload {
  import opened Wrappers
  import opened Text
  import opened Stats
  import opened OoklaConstants
  import opened OoklaServers
  import opened OoklaEngine
  import opened OoklaSpeed
  import opened OoklaPing

  /** `!jsonData["b"]`: the counter is missing (undefined or null) or zero. */
  predicate Falsy(b: Option<int>) {
    b.None? || b.value == 0
  }

  class UploadStatsListener {
    var previousTotalBytesReceived: int
    /** The listener's promise has resolved. */
    var ready: bool
    /** Every delta reported to the callback, in order. */
    ghost var deltas: seq<int>

    ghost predicate Valid()
      reads this
    {
      SumInts(deltas) == previousTotalBytesReceived
    }

    constructor()
      ensures Valid() && previousTotalBytesReceived == 0 && !ready && deltas == []
    {
      previousTotalBytesReceived := 0;
      ready := false;
      deltas := [];
    }

    /**
     * A message on the statistics socket, with `b` the counter parsed from it. Returns the
     * delta passed to the callback, if any.
     */
    method OnMessage(message: string, b: Option<int>) returns (delta: Option<int>)
      requires Valid()
      modifies this
      ensures Valid()
      ensures !StartsWith(message, "{") ==>
                delta.None? && ready == old(ready) && deltas == old(deltas)
                && previousTotalBytesReceived == old(previousTotalBytesReceived)
      ensures StartsWith(message, "{") && Falsy(b) ==>
                delta.None? && ready && deltas == old(deltas)
                && previousTotalBytesReceived == old(previousTotalBytesReceived)
      ensures StartsWith(message, "{") && !Falsy(b) ==>
                && delta == Some(b.value - old(previousTotalBytesReceived))
                && previousTotalBytesReceived == b.value
                && deltas == old(deltas) + [delta.value]
                && ready == old(ready)
    {
      delta := None;
      if StartsWith(message, "{") {
        var totalBytesReceived := b;
        if Falsy(totalBytesReceived) {
          ready := true;
        } else {
          var bytesReceivedNow := totalBytesReceived.value - previousTotalBytesReceived;
          delta := Some(bytesReceivedNow);
          deltas := deltas + [bytesReceivedNow];
          SumIntsConcat(old(deltas), [bytesReceivedNow]);
          previousTotalBytesReceived := totalBytesReceived.value;
        }
      }
    }
  }

  class UploadTest {
    const variant: Variant
    const bestServer: MeasurementServer
    const sampler: Sampler
    const stats: UploadStatsListener
    var activeConnections: int
    /** The listener is ready and the initial connections have been opened. */
    var started: bool
    var finished: bool
    /** Uploads still in flight. */
    ghost var live: int
    /** Uploads that completed without error. */
    ghost var succeeded: int

    ghost predicate Valid()
      reads this, sampler, stats
    {
      && sampler.Valid() && stats.Valid()
      && sampler.received == stats.previousTotalBytesReceived
      && started == stats.ready
      && (!started ==> activeConnections == 0 && live == 0)
      && (finished ==> started)
      && 0 <= live && 0 <= succeeded
      && activeConnections <= UploadTestMaxConnections
      && activeConnections == live + (if variant == Esm then succeeded else 0)
    }

    /** The state right after the promise starts: the statistics socket is opening. */
    constructor(variant: Variant, bestServer: MeasurementServer, now: int)
      ensures Valid() && fresh(sampler) && fresh(stats)
      ensures this.variant == variant && this.bestServer == bestServer
      ensures activeConnections == 0 && !started && !finished
      ensures sampler.startTime == now && sampler.samples == [] && sampler.transferredBytes == 0
    {
      this.variant := variant;
      this.bestServer := bestServer;
      sampler := new Sampler(now);
      stats := new UploadStatsListener();
      activeConnections := 0;
      started := false;
      finished := false;
      live := 0;
      succeeded := 0;
    }

    /**
     * A statistics message: its delta, if any, is added to the sampled bytes; the first
     * readiness signal opens the four initial connections.
     */
    method OnStatsMessage(message: string, b: Option<int>)
      requires Valid()
      modifies this, sampler, stats
      ensures Valid()
      ensures sampler.received == stats.previousTotalBytesReceived
      ensures sampler.transferredBytes == old(sampler.transferredBytes) && sampler.samples == old(sampler.samples)
      ensures !old(started) && started ==> activeConnections == UploadTestInitialConnections
      ensures old(started) ==> started && activeConnections == old(activeConnections)
      ensures finished == old(finished)
    {
      var delta := stats.OnMessage(message, b);
      if delta.Some? {
        sampler.AddBytes(delta.value);
      }
      if stats.ready && !started {
        started := true;
        var connections := 0;
        while connections < UploadTestInitialConnections
          invariant 0 <= connections <= UploadTestInitialConnections
          invariant Valid() && started && finished == old(finished)
          invariant activeConnections == connections
          invariant sampler.transferredBytes == old(sampler.transferredBytes) && sampler.samples == old(sampler.samples)
        {
          OpenConnection();
          connections := connections + 1;
        }
      }
    }

    /** `openServerConnection()`: refused at the cap of 6, otherwise one more upload. */
    method OpenConnection()
      requires Valid() && started
      modifies this
      ensures Valid()
      ensures old(activeConnections) >= UploadTestMaxConnections ==> activeConnections == old(activeConnections)
      ensures old(activeConnections) < UploadTestMaxConnections ==> activeConnections == old(activeConnections) + 1
      ensures variant == Esm && old(succeeded) >= UploadTestMaxConnections ==> activeConnections == old(activeConnections)
      ensures finished == old(finished) && started == old(started) && succeeded == old(succeeded)
    {
      if activeConnections >= UploadTestMaxConnections {
        return;
      }
      activeConnections := activeConnections + 1;
      live := live + 1;
    }

    /**
     * An upload request settled. The TypeScript source and the CommonJS build decrement the
     * counter either way; the ESM build only when the request failed.
     */
    method ConnectionFinished(failed: bool)
      requires Valid() && live > 0
      modifies this
      ensures Valid()
      ensures activeConnections == old(activeConnections) - (if variant != Esm || failed then 1 else 0)
      ensures live == old(live) - 1
      ensures finished == old(finished) && started == old(started)
    {
      live := live - 1;
      if variant != Esm || failed {
        activeConnections := activeConnections - 1;
      } else {
        succeeded := succeeded + 1;
      }
    }

    /** The inner loop of the ramp-up and top-up rules. */
    method OpenUpTo(target: int)
      requires Valid() && started
      modifies this
      ensures Valid()
      ensures activeConnections == AfterOpens(old(activeConnections), target, UploadTestMaxConnections)
      ensures finished == old(finished) && started == old(started)
    {
      var initial := activeConnections;
      var additionalConnections := target - activeConnections;
      var connections := 0;
      while connections < additionalConnections
        invariant Valid() && started && finished == old(finished)
        invariant 0 <= connections
        invariant if additionalConnections > 0 then connections <= additionalConnections else connections == 0
        invariant activeConnections == AfterOpens(initial, initial + connections, UploadTestMaxConnections)
      {
        OpenConnection();
        connections := connections + 1;
      }
      assert additionalConnections > 0 ==> initial + connections == target;
    }

    /** One 750 ms tick at time `now` (ticks run only once the test has started). */
    method Tick(now: int) returns (action: TickAction)
      requires Valid() && started && !finished && now > sampler.lastSampleTime
      modifies this, sampler
      ensures Valid()
      ensures var bandwidth := Bandwidth(old(sampler.sampleBytes), now - old(sampler.lastSampleTime));
              && sampler.samples == old(sampler.samples) + [bandwidth]
              && sampler.transferredBytes == old(sampler.transferredBytes) + old(sampler.sampleBytes)
              && sampler.sampleBytes == 0
              && action == TickPhase(variant, true, false, Progress(now - sampler.startTime))
              && (action == Ramp ==>
                    activeConnections == AfterOpens(old(activeConnections), ScalingTarget(bandwidth, UploadTestScalingRatio), UploadTestMaxConnections))
      ensures action == TopUp ==>
                activeConnections == AfterOpens(old(activeConnections), UploadTestInitialConnections, UploadTestMaxConnections)
      ensures action in {Finish, Idle} ==> activeConnections == old(activeConnections)
      ensures finished <==> action == Finish
    {
      var bandwidth, progress := sampler.Take(now);
      action := TickPhase(variant, true, false, progress);
      match action
      case Ramp =>
        var recommendedConnections := ScalingTarget(bandwidth, UploadTestScalingRatio);
        OpenUpTo(recommendedConnections);
      case TopUp =>
        OpenUpTo(UploadTestInitialConnections);
      case Finish =>
        finished := true;
      case Idle =>
    }

    /**
     * The resolved result once the test has finished: the transferred bytes are the
     * server's last reported counter minus what arrived after the last tick.
     */
    function Result(ping: PingResult): (r: TransferResult)
      requires Valid()
      reads this, sampler, stats
      ensures r.transferredBytes + sampler.sampleBytes == stats.previousTotalBytesReceived
      ensures r.latency == ping.latency && r.jitter == ping.jitter
      ensures r.speed.Num? <==> |sampler.samples| >= 4
      ensures r.servers.None? <==> variant == Esm
      ensures variant != Esm ==> r.servers == Some([bestServer])
    {
      SpeedDefinedIff(sampler.samples);
      TransferResult(
        sampler.transferredBytes,
        ping.latency,
        ping.jitter,
        SpeedFromSamples(sampler.samples),
        if variant == Esm then None else Some([bestServer]),
        sampler.lastSampleTime - sampler.startTime)
    }
  }
}
