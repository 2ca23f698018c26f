/**
 * `measureDownloadSpeed`: the adaptive download controller. It keeps a global connection
 * counter and one counter per measurement server, refuses to open beyond 24 connections,
 * sends each extra connection to the least-loaded server (multi-server mode) or to the
 * best server, and on every tick samples the bandwidth and applies the phase rule.
 */
module OoklaDownload {
  import opened Wrappers
  import opened Sorting
  import opened OoklaConstants
  import opened OoklaServers
  import opened OoklaEngine
  import opened OoklaSpeed
  import opened OoklaPing

  /** The comparator `serverA.activeConnections - serverB.activeConnections`. */
  function ActiveOf(server: MeasurementServer): real {
    server.activeConnections as real
  }

  /** The sum of the per-server connection counters. */
  function TotalActive(servers: seq<MeasurementServer>): int
    decreases |servers|
  {
    if servers == [] then 0 else servers[0].activeConnections + TotalActive(servers[1..])
  }

  /** `server.activeConnections += delta` on the i-th server. */
  function Bump(servers: seq<MeasurementServer>, i: nat, delta: int): (r: seq<MeasurementServer>)
    requires i < |servers|
    ensures |r| == |servers|
  {
    servers[i := servers[i].(activeConnections := servers[i].activeConnections + delta)]
  }

  lemma {:induction false} TotalActiveBump(servers: seq<MeasurementServer>, i: nat, delta: int)
    requires i < |servers|
    ensures TotalActive(Bump(servers, i, delta)) == TotalActive(servers) + delta
    decreases |servers|
  {
    var b := Bump(servers, i, delta);
    if i > 0 {
      assert b[1..] == Bump(servers[1..], i - 1, delta);
      TotalActiveBump(servers[1..], i - 1, delta);
    } else {
      assert b[1..] == servers[1..];
    }
  }

  lemma {:induction false} TotalActiveConcat(a: seq<MeasurementServer>, b: seq<MeasurementServer>)
    ensures TotalActive(a + b) == TotalActive(a) + TotalActive(b)
    decreases |a|
  {
    if a != [] {
      assert (a + b)[1..] == a[1..] + b;
      TotalActiveConcat(a[1..], b);
    } else {
      assert a + b == b;
    }
  }

  /** Taking the k-th server out removes its counter from the total. */
  lemma TotalActiveRemove(b: seq<MeasurementServer>, k: nat)
    requires k < |b|
    ensures TotalActive(b) == b[k].activeConnections + TotalActive(b[..k] + b[k + 1..])
  {
    var pre, post := b[..k], b[k + 1..];
    var tail := [b[k]] + post;
    assert b == pre + tail;
    assert tail[1..] == post;
    TotalActiveConcat(pre, tail);
    TotalActiveConcat(pre, post);
  }

  lemma MultisetRemove<T>(b: seq<T>, k: nat)
    requires k < |b|
    ensures multiset(b[..k] + b[k + 1..]) == multiset(b) - multiset{b[k]}
  {
    assert b == b[..k] + [b[k]] + b[k + 1..];
  }

  /** Reordering the servers (as the in-place sort does) keeps the total. */
  lemma {:induction false} TotalActivePermutation(a: seq<MeasurementServer>, b: seq<MeasurementServer>)
    requires multiset(a) == multiset(b)
    ensures TotalActive(a) == TotalActive(b)
    decreases |a|
  {
    if a == [] {
      assert |b| == |multiset(b)|;
    } else {
      var rest := MatchFirst(a, b);
      TotalActivePermutation(a[1..], rest);
    }
  }

  /** The first server of `a` taken out of its permutation `b`. */
  lemma MatchFirst(a: seq<MeasurementServer>, b: seq<MeasurementServer>) returns (rest: seq<MeasurementServer>)
    requires multiset(a) == multiset(b) && a != []
    ensures multiset(a[1..]) == multiset(rest)
    ensures TotalActive(b) == a[0].activeConnections + TotalActive(rest)
  {
    var k := IndexOf(b, a[0]);
    rest := b[..k] + b[k + 1..];
    MultisetRemove(b, k);
    assert a == [a[0]] + a[1..];
    assert multiset(a[1..]) == multiset(a) - multiset{a[0]};
    TotalActiveRemove(b, k);
  }

  lemma IndexOf<T>(b: seq<T>, x: T) returns (k: nat)
    requires x in multiset(b)
    ensures k < |b| && b[k] == x
  {
    assert x in b;
    k :| 0 <= k < |b| && b[k] == x;
  }

  /** A server apart from its connection counter. */
  function Unloaded(server: MeasurementServer): MeasurementServer {
    server.(activeConnections := 0)
  }

  /** The servers apart from their connection counters, in order. */
  function Identities(servers: seq<MeasurementServer>): (r: seq<MeasurementServer>)
    ensures |r| == |servers|
  {
    seq(|servers|, i requires 0 <= i < |servers| => Unloaded(servers[i]))
  }

  /** Opening or closing a connection changes a counter and nothing else. */
  lemma IdentitiesBump(servers: seq<MeasurementServer>, i: nat, delta: int)
    requires i < |servers|
    ensures Identities(Bump(servers, i, delta)) == Identities(servers)
  {
    var b := Bump(servers, i, delta);
    assert forall j :: 0 <= j < |servers| ==> Unloaded(b[j]) == Unloaded(servers[j]);
  }

  /** Reordering the servers (as the in-place sort does) reorders the same servers. */
  lemma {:induction false} IdentitiesPermutation(a: seq<MeasurementServer>, b: seq<MeasurementServer>)
    requires multiset(a) == multiset(b)
    ensures multiset(Identities(a)) == multiset(Identities(b))
    decreases |a|
  {
    if a == [] {
      assert |b| == |multiset(b)|;
    } else {
      var k := IndexOf(b, a[0]);
      var pre, post := b[..k], b[k + 1..];
      MultisetRemove(b, k);
      assert a == [a[0]] + a[1..];
      assert multiset(a[1..]) == multiset(pre + post);
      IdentitiesPermutation(a[1..], pre + post);
      assert b == pre + [b[k]] + post;
      IdentitiesConcat(pre, [b[k]]);
      IdentitiesConcat(pre + [b[k]], post);
      IdentitiesConcat(pre, post);
      IdentitiesConcat([a[0]], a[1..]);
    }
  }

  lemma IdentitiesConcat(a: seq<MeasurementServer>, b: seq<MeasurementServer>)
    ensures Identities(a + b) == Identities(a) + Identities(b)
  {
  }

  /**
   * One pass of the multi-server open loop: the servers sorted in place by their counters,
   * then a connection to the head unless the cap of 24 is reached. It opens one connection
   * below the cap and none at it, and keeps the servers themselves.
   */
  function Pass(servers: seq<MeasurementServer>): (r: seq<MeasurementServer>)
    requires |servers| >= 1
    ensures |r| == |servers|
    ensures TotalActive(r) == AfterOpens(TotalActive(servers), TotalActive(servers) + 1, DownloadTestMaxConnections)
    ensures multiset(Identities(r)) == multiset(Identities(servers))
  {
    var sorted := SortBy(servers, ActiveOf);
    TotalActivePermutation(servers, sorted);
    IdentitiesPermutation(servers, sorted);
    if TotalActive(servers) < DownloadTestMaxConnections then
      TotalActiveBump(sorted, 0, 1);
      IdentitiesBump(sorted, 0, 1);
      Bump(sorted, 0, 1)
    else
      sorted
  }

  /**
   * `k` passes of the multi-server open loop, in order. They open `k` connections in all,
   * each refused once the total reaches the cap, so the total ends at
   * `AfterOpens(total, total + k, 24)`; and they keep the servers themselves.
   */
  function Passes(servers: seq<MeasurementServer>, k: nat): (r: seq<MeasurementServer>)
    requires |servers| >= 1
    ensures |r| == |servers|
    ensures TotalActive(r) == AfterOpens(TotalActive(servers), TotalActive(servers) + k, DownloadTestMaxConnections)
    ensures multiset(Identities(r)) == multiset(Identities(servers))
  {
    if k == 0 then servers
    else
      var before := Passes(servers, k - 1);
      AfterOpensStep(TotalActive(servers), k - 1, k, DownloadTestMaxConnections, TotalActive(before), TotalActive(Pass(before)));
      Pass(before)
  }

  /**
   * A pass gives its connection to a least-loaded server: the head of the result is some
   * server whose counter no other server undercuts, with that counter raised by one unless
   * the cap was reached.
   */
  lemma PassGoesToLeastLoaded(servers: seq<MeasurementServer>) returns (m: nat)
    requires |servers| >= 1
    ensures m < |servers|
    ensures forall j :: 0 <= j < |servers| ==> servers[m].activeConnections <= servers[j].activeConnections
    ensures Unloaded(Pass(servers)[0]) == Unloaded(servers[m])
    ensures Pass(servers)[0].activeConnections
            == servers[m].activeConnections + (if TotalActive(servers) < DownloadTestMaxConnections then 1 else 0)
  {
    var sorted := SortBy(servers, ActiveOf);
    TotalActivePermutation(servers, sorted);
    m := IndexOf(servers, sorted[0]);
    forall j | 0 <= j < |servers|
      ensures servers[m].activeConnections <= servers[j].activeConnections
    {
      assert servers[j] in multiset(sorted);
      SortedHeadLeast(sorted, ActiveOf, servers[j]);
    }
    if TotalActive(servers) < DownloadTestMaxConnections {
      assert Pass(servers) == Bump(sorted, 0, 1);
    } else {
      assert Pass(servers) == sorted;
    }
  }

  /** No counter is negative. */
  ghost predicate CountersNonNegative(servers: seq<MeasurementServer>) {
    forall i :: 0 <= i < |servers| ==> servers[i].activeConnections >= 0
  }

  lemma PermutationNonNegative(a: seq<MeasurementServer>, b: seq<MeasurementServer>)
    requires multiset(a) == multiset(b) && CountersNonNegative(a)
    ensures CountersNonNegative(b)
  {
    forall j | 0 <= j < |b| ensures b[j].activeConnections >= 0 {
      assert b[j] in multiset(a);
    }
  }

  lemma {:induction false} TotalActiveNonNegative(servers: seq<MeasurementServer>)
    requires CountersNonNegative(servers)
    ensures TotalActive(servers) >= 0
    decreases |servers|
  {
    if servers != [] {
      TotalActiveNonNegative(servers[1..]);
    }
  }

  class DownloadTest {
    const variant: Variant
    /** Connections are spread over all servers (always so in the ESM build). */
    const multi: bool
    const sampler: Sampler
    /** The ranked servers, shared with the caller; index 0 is the best server until a sort. */
    var servers: seq<MeasurementServer>
    var activeConnections: int
    var finished: bool

    ghost predicate Valid()
      reads this, sampler
    {
      && sampler.Valid()
      && |servers| >= 1
      && CountersNonNegative(servers)
      && activeConnections == TotalActive(servers)
      && activeConnections <= DownloadTestMaxConnections
    }

    /** The state right after the promise starts, before any connection is opened. */
    constructor(variant: Variant, multiConnectionTest: bool, servers: seq<MeasurementServer>, now: int)
      requires |servers| >= 1
      requires forall i :: 0 <= i < |servers| ==> servers[i].activeConnections == 0
      ensures Valid() && fresh(sampler)
      ensures this.variant == variant && multi == (multiConnectionTest || variant == Esm)
      ensures this.servers == servers && activeConnections == 0 && !finished
      ensures sampler.startTime == now && sampler.samples == [] && sampler.transferredBytes == 0
    {
      this.variant := variant;
      multi := multiConnectionTest || variant == Esm;
      sampler := new Sampler(now);
      this.servers := servers;
      activeConnections := 0;
      finished := false;
      new;
      TotalActiveZero(servers);
    }

    static lemma {:induction false} TotalActiveZero(servers: seq<MeasurementServer>)
      requires forall i :: 0 <= i < |servers| ==> servers[i].activeConnections == 0
      ensures TotalActive(servers) == 0
      decreases |servers|
    {
      if servers != [] {
        TotalActiveZero(servers[1..]);
      }
    }

    /**
     * `openServerConnection(server)`: refused at the cap of 24; otherwise both the global
     * counter and the server's own counter go up by one.
     */
    method OpenConnection(i: nat)
      requires Valid() && i < |servers|
      modifies this
      ensures Valid()
      ensures old(activeConnections) >= DownloadTestMaxConnections ==>
                servers == old(servers) && activeConnections == old(activeConnections)
      ensures old(activeConnections) < DownloadTestMaxConnections ==>
                servers == Bump(old(servers), i, 1) && activeConnections == old(activeConnections) + 1
      ensures finished == old(finished)
    {
      if activeConnections >= DownloadTestMaxConnections {
        return;
      }
      TotalActiveBump(servers, i, 1);
      activeConnections := activeConnections + 1;
      servers := Bump(servers, i, 1);
    }

    /**
     * `decreaseConnections(server)`: a connection to the i-th server ended (its body was
     * read to the end, or the request or a read failed or was aborted).
     */
    method ConnectionClosed(i: nat)
      requires Valid() && i < |servers| && servers[i].activeConnections > 0
      modifies this
      ensures Valid()
      ensures servers == Bump(old(servers), i, -1) && activeConnections == old(activeConnections) - 1
      ensures finished == old(finished)
    {
      TotalActiveBump(servers, i, -1);
      activeConnections := activeConnections - 1;
      servers := Bump(servers, i, -1);
    }

    /** `sampleBytes += value.length` for a chunk read from any connection. */
    method OnChunk(length: nat)
      requires Valid()
      modifies sampler
      ensures Valid()
      ensures sampler.sampleBytes == old(sampler.sampleBytes) + length
      ensures sampler.transferredBytes == old(sampler.transferredBytes) && sampler.samples == old(sampler.samples)
    {
      sampler.AddBytes(length);
    }

    /**
     * Where the next connection goes: the best server in single mode; otherwise the servers
     * are sorted in place by their counters and the first, a least-loaded one, is chosen.
     */
    method SelectNextConnectionServer() returns (i: nat)
      requires Valid()
      modifies this
      ensures Valid() && i < |servers|
      ensures activeConnections == old(activeConnections) && finished == old(finished)
      ensures !multi ==> i == 0 && servers == old(servers)
      ensures multi ==> servers == SortBy(old(servers), ActiveOf) && i == 0
      ensures multiset(servers) == multiset(old(servers))
      ensures multi ==> forall j :: 0 <= j < |servers| ==> servers[i].activeConnections <= servers[j].activeConnections
    {
      if !multi {
        return 0;
      }
      var sorted := SortBy(servers, ActiveOf);
      TotalActivePermutation(servers, sorted);
      PermutationNonNegative(servers, sorted);
      servers := sorted;
      i := 0;
      forall j | 0 <= j < |servers| ensures servers[0].activeConnections <= servers[j].activeConnections {
        if j > 0 {
          assert ActiveOf(servers[0]) <= ActiveOf(servers[j]);
        }
      }
    }

    /**
     * One pass of the ramp-up and top-up loops: pick a server and try to open a connection
     * to it. The servers stay the same servers; only one counter may have gone up.
     */
    method OpenNext()
      requires Valid()
      modifies this
      ensures Valid()
      ensures activeConnections == AfterOpens(old(activeConnections), old(activeConnections) + 1, DownloadTestMaxConnections)
      ensures |servers| == |old(servers)|
      ensures multiset(Identities(servers)) == multiset(Identities(old(servers)))
      ensures !multi ==> servers == Bump(old(servers), 0, activeConnections - old(activeConnections))
      ensures multi ==> servers == Pass(old(servers))
      ensures finished == old(finished)
    {
      var before := servers;
      var server := SelectNextConnectionServer();
      IdentitiesPermutation(before, servers);
      TotalActivePermutation(before, servers);
      var selected := servers;
      OpenConnection(server);
      IdentitiesBump(selected, server, 1);
      if activeConnections == old(activeConnections) {
        assert servers == Bump(selected, 0, 0);
      }
    }

    /**
     * The open step of the ramp-up and top-up rules: `target - active` passes of the inner
     * loop, none when that is not positive.
     */
    method OpenUpTo(target: int)
      requires Valid()
      modifies this
      ensures Valid()
      ensures activeConnections == AfterOpens(old(activeConnections), target, DownloadTestMaxConnections)
      ensures |servers| == |old(servers)|
      ensures multiset(Identities(servers)) == multiset(Identities(old(servers)))
      ensures !multi ==> servers == Bump(old(servers), 0, activeConnections - old(activeConnections))
      ensures multi ==> servers == Passes(old(servers), Additional(target, old(activeConnections)))
      ensures finished == old(finished)
    {
      var additionalConnections := Additional(target, activeConnections);
      OpenConnections(additionalConnections);
      AfterOpensAdditional(old(activeConnections), target, DownloadTestMaxConnections, additionalConnections);
      if !multi {
        IdentitiesBump(old(servers), 0, activeConnections - old(activeConnections));
      }
    }

    /**
     * The loop of `count` passes, each choosing a server and opening a connection to it; in
     * single mode all go to the best server.
     */
    method OpenConnections(count: nat)
      requires Valid()
      modifies this
      ensures Valid()
      ensures activeConnections == AfterOpens(old(activeConnections), old(activeConnections) + count, DownloadTestMaxConnections)
      ensures !multi ==> servers == Bump(old(servers), 0, activeConnections - old(activeConnections))
      ensures multi ==> servers == Passes(old(servers), count)
      ensures finished == old(finished)
    {
      var initial := activeConnections;
      var connections := 0;
      while connections < count
        invariant Valid()
        invariant connections <= count
        invariant !multi ==> activeConnections == AfterOpens(initial, initial + connections, DownloadTestMaxConnections)
        invariant !multi ==> servers == Bump(old(servers), 0, activeConnections - initial)
        invariant multi ==> servers == Passes(old(servers), connections)
        invariant finished == old(finished)
      {
        ghost var now := activeConnections;
        OpenNext();
        if !multi {
          AfterOpensStep(initial, connections, connections + 1, DownloadTestMaxConnections, now, activeConnections);
        }
        connections := connections + 1;
      }
    }

    /**
     * One 750 ms tick at time `now`: take the sample, then ramp up, top up, finish or do
     * nothing as the phase rule of the build says.
     */
    method Tick(now: int) returns (action: TickAction)
      requires Valid() && !finished && now > sampler.lastSampleTime
      modifies this, sampler
      ensures Valid()
      ensures var bandwidth := Bandwidth(old(sampler.sampleBytes), now - old(sampler.lastSampleTime));
              && sampler.samples == old(sampler.samples) + [bandwidth]
              && sampler.transferredBytes == old(sampler.transferredBytes) + old(sampler.sampleBytes)
              && sampler.sampleBytes == 0
              && action == TickPhase(variant, false, multi, Progress(now - sampler.startTime))
              && (action == Ramp ==>
                    activeConnections == AfterOpens(old(activeConnections), ScalingTarget(bandwidth, DownloadTestScalingRatio), DownloadTestMaxConnections))
      ensures action == TopUp ==>
                activeConnections == AfterOpens(old(activeConnections), DownloadTestInitialConnections, DownloadTestMaxConnections)
      ensures action in {Finish, Idle} ==> activeConnections == old(activeConnections) && servers == old(servers)
      ensures multiset(Identities(servers)) == multiset(Identities(old(servers)))
      ensures !multi ==> servers == Bump(old(servers), 0, activeConnections - old(activeConnections))
      ensures multi && action == Ramp ==>
                var bandwidth := Bandwidth(old(sampler.sampleBytes), now - old(sampler.lastSampleTime));
                servers == Passes(old(servers), Additional(ScalingTarget(bandwidth, DownloadTestScalingRatio), old(activeConnections)))
      ensures multi && action == TopUp ==>
                servers == Passes(old(servers), Additional(DownloadTestInitialConnections, old(activeConnections)))
      ensures finished <==> action == Finish
    {
      var bandwidth, progress := sampler.Take(now);
      action := TickPhase(variant, false, multi, progress);
      ApplyPhase(action, bandwidth);
    }

    /** The phase rule of a tick, once the sample `bandwidth` is taken. */
    method ApplyPhase(action: TickAction, bandwidth: real)
      requires Valid() && !finished
      modifies this
      ensures Valid()
      ensures action == Ramp ==>
                activeConnections == AfterOpens(old(activeConnections), ScalingTarget(bandwidth, DownloadTestScalingRatio), DownloadTestMaxConnections)
      ensures action == TopUp ==>
                activeConnections == AfterOpens(old(activeConnections), DownloadTestInitialConnections, DownloadTestMaxConnections)
      ensures action in {Finish, Idle} ==> activeConnections == old(activeConnections) && servers == old(servers)
      ensures multiset(Identities(servers)) == multiset(Identities(old(servers)))
      ensures !multi ==> servers == Bump(old(servers), 0, activeConnections - old(activeConnections))
      ensures multi && action == Ramp ==>
                servers == Passes(old(servers), Additional(ScalingTarget(bandwidth, DownloadTestScalingRatio), old(activeConnections)))
      ensures multi && action == TopUp ==>
                servers == Passes(old(servers), Additional(DownloadTestInitialConnections, old(activeConnections)))
      ensures finished <==> action == Finish
    {
      match action
      case Ramp =>
        var recommendedConnections := ScalingTarget(bandwidth, DownloadTestScalingRatio);
        OpenUpTo(recommendedConnections);
      case TopUp =>
        OpenUpTo(DownloadTestInitialConnections);
      case Finish =>
        finished := true;
        assert servers == Bump(servers, 0, 0);
      case Idle =>
        assert servers == Bump(servers, 0, 0);
    }

    /**
     * The resolved result once the test has finished: the probe's latency and jitter, the
     * speed from the samples and, except in the ESM build, the servers used.
     */
    function Result(ping: PingResult): (r: TransferResult)
      requires Valid()
      reads this, sampler
      ensures r.transferredBytes + sampler.sampleBytes == sampler.received
      ensures r.latency == ping.latency && r.jitter == ping.jitter
      ensures r.speed.Num? <==> |sampler.samples| >= 4
      ensures r.servers.None? <==> variant == Esm
      ensures variant != Esm && !multi ==> r.servers == Some([servers[0]])
      ensures variant != Esm && multi ==> r.servers == Some(servers)
    {
      SpeedDefinedIff(sampler.samples);
      TransferResult(
        sampler.transferredBytes,
        ping.latency,
        ping.jitter,
        SpeedFromSamples(sampler.samples),
        if variant == Esm then None else Some(if multi then servers else [servers[0]]),
        sampler.lastSampleTime - sampler.startTime)
    }
  }

  /**
   * The start of the test: one connection per server in multi-server mode (refused beyond
   * the cap), otherwise four to the best server.
   */
  method OpenInitialConnections(test: DownloadTest)
    requires test.Valid() && test.activeConnections == 0
    modifies test
    ensures test.Valid()
    ensures test.multi ==> test.activeConnections == AfterOpens(0, |old(test.servers)|, DownloadTestMaxConnections)
    ensures !test.multi ==> test.activeConnections == DownloadTestInitialConnections
    ensures !test.multi ==> test.servers == Bump(old(test.servers), 0, DownloadTestInitialConnections)
    ensures test.finished == old(test.finished)
  {
    var n := |test.servers|;
    if test.multi {
      var i := 0;
      while i < n
        invariant 0 <= i <= n && |test.servers| == n
        invariant test.Valid() && test.finished == old(test.finished)
        invariant test.activeConnections == AfterOpens(0, i, DownloadTestMaxConnections)
      {
        test.OpenConnection(i);
        i := i + 1;
      }
    } else {
      var connections := 0;
      while connections < DownloadTestInitialConnections
        invariant 0 <= connections <= DownloadTestInitialConnections
        invariant test.Valid() && test.finished == old(test.finished)
        invariant test.activeConnections == connections
        invariant test.servers == Bump(old(test.servers), 0, connections)
      {
        test.OpenConnection(0);
        connections := connections + 1;
      }
    }
  }
}
