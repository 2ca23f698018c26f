/**
 * `measurePing`: the WebSocket latency probe. After "PING " is sent on open, every message
 * containing "PONG" answers the previous ping: the first answer is discarded, each later
 * one records the time since the last timestamped ping and, with jitter enabled, the
 * absolute difference to the previous latency. After `requests` recorded latencies the
 * probe closes its socket; a target of -1 never closes it. On close the result is the
 * latencies' average (interquartile mean in the CommonJS build) and the jitters' average.
 */
module OoklaPing {
  import opened Wrappers
  import opened Text
  import opened Sorting
  import opened Stats
  import opened OoklaConstants

  /** The result of a probe: `jitter` is `None` (null) when jitter is not calculated. */
  datatype PingResult = PingResult(latency: Number, jitter: Option<Number>)

  /** `Math.abs` on integers. */
  function AbsInt(x: int): (r: int)
    ensures r >= 0 && (r == x || r == -x)
  {
    if x < 0 then -x else x
  }

  function Reals(values: seq<int>): (r: seq<real>)
    ensures |r| == |values|
  {
    seq(|values|, i requires 0 <= i < |values| => values[i] as real)
  }

  /** The close handler's result for the recorded latencies and jitters. */
  function PingOutcome(variant: Variant, latencies: seq<int>, jitters: seq<int>, calculateJitter: bool): PingResult {
    PingResult(
      if variant == CommonJs then InterquartileMean(Reals(latencies)) else Average(Reals(latencies)),
      if calculateJitter then Some(Average(Reals(jitters))) else None)
  }

  class PingProbe {
    /** The target number of recorded latencies (-1: no target). */
    const requests: int
    const calculateJitter: bool
    var testNumber: int
    var requestStartTime: int
    var latencies: seq<int>
    var jitters: seq<int>
    /** The socket has closed (by the probe, the server or the caller) and the result is settled. */
    var closed: bool
    /** The probe closed the socket itself after its last PONG. */
    ghost var selfClosed: bool
    /** Send time of every timestamped PING, in order. */
    ghost var pingTimes: seq<int>
    /** Receive time of every PONG, in order. */
    ghost var pongTimes: seq<int>

    ghost predicate Valid()
      reads this
    {
      Counters() && LatenciesMatch(latencies, pingTimes, pongTimes) && JittersMatch(jitters, latencies, calculateJitter)
    }

    /** One timestamped PING per test number; one PONG per PING, plus the closing one. */
    ghost predicate Counters()
      reads this
    {
      && testNumber >= 0
      && |pingTimes| == testNumber
      && (testNumber > 0 ==> requestStartTime == pingTimes[testNumber - 1])
      && (!selfClosed ==> |pongTimes| == testNumber)
      && (selfClosed ==> closed && |pongTimes| == testNumber + 1 && testNumber == requests)
    }

    /** The state when the socket opens and sends the untimed "PING ". */
    constructor(requests: int, calculateJitter: bool)
      ensures Valid()
      ensures this.requests == requests && this.calculateJitter == calculateJitter
      ensures testNumber == 0 && latencies == [] && jitters == [] && !closed && pongTimes == []
    {
      this.requests := requests;
      this.calculateJitter := calculateJitter;
      testNumber := 0;
      requestStartTime := 0;
      latencies := [];
      jitters := [];
      closed := false;
      selfClosed := false;
      pingTimes := [];
      pongTimes := [];
    }

    /**
     * A message arrives at time `now`; `sendTime` is the clock's second reading, taken
     * when the next timestamped PING is sent (a closed socket delivers no messages).
     */
    method OnMessage(message: string, now: int, sendTime: int)
      requires Valid() && !closed
      modifies this
      ensures Valid()
      ensures !Contains(message, "PONG") ==>
                && latencies == old(latencies) && jitters == old(jitters) && testNumber == old(testNumber)
                && !closed && pongTimes == old(pongTimes) && pingTimes == old(pingTimes)
      ensures Contains(message, "PONG") ==>
                && pongTimes == old(pongTimes) + [now]
                && latencies == old(latencies) + (if old(testNumber) == 0 then [] else [now - old(requestStartTime)])
                && (closed <==> old(testNumber) == requests)
                && (!closed ==> testNumber == old(testNumber) + 1 && pingTimes == old(pingTimes) + [sendTime])
      ensures requests < 0 ==> !closed
      ensures closed ==> |latencies| == requests
    {
      if Contains(message, "PONG") {
        OnPong(now, sendTime);
      }
    }

    /** A PONG arrives at time `now`: record, then close or send the next timestamped PING. */
    method OnPong(now: int, sendTime: int)
      requires Valid() && !closed
      modifies this
      ensures Valid()
      ensures pongTimes == old(pongTimes) + [now]
      ensures latencies == old(latencies) + (if old(testNumber) == 0 then [] else [now - old(requestStartTime)])
      ensures closed <==> old(testNumber) == requests
      ensures !closed ==> testNumber == old(testNumber) + 1 && pingTimes == old(pingTimes) + [sendTime]
    {
      if testNumber != 0 {
        var latency := now - requestStartTime;
        if calculateJitter && testNumber >= 2 {
          var previousLatency := latencies[testNumber - 2];
          var jitter := AbsInt(latency - previousLatency);
          jitters := jitters + [jitter];
        }
        latencies := latencies + [latency];
      }
      pongTimes := pongTimes + [now];
      if testNumber == requests {
        closed := true;
        selfClosed := true;
      } else {
        var currentTime := sendTime;
        requestStartTime := currentTime;
        pingTimes := pingTimes + [currentTime];
        testNumber := testNumber + 1;
      }
    }

    /** The socket is closed from outside (the server, or the transfer test that started the probe). */
    method Close()
      requires Valid() && !closed
      modifies this
      ensures Valid() && closed
      ensures latencies == old(latencies) && jitters == old(jitters) && testNumber == old(testNumber)
    {
      closed := true;
    }

    /**
     * The auto-close timer as written: its callback evaluates `ws.close` without calling
     * it, so firing it leaves the probe as it was.
     */
    method AutoCloseAsWritten()
      requires Valid() && !closed
      ensures Valid() && !closed
    {
    }

    /** The auto-close timer as intended: firing it closes the socket, which settles the result. */
    method AutoClose()
      requires Valid() && !closed
      modifies this
      ensures Valid() && closed
      ensures latencies == old(latencies) && jitters == old(jitters) && testNumber == old(testNumber)
    {
      Close();
    }

    /** The close handler: the result for what was recorded, whoever closed the socket. */
    function Result(variant: Variant): (r: PingResult)
      requires Valid()
      reads this
      ensures r.jitter.None? <==> !calculateJitter
      ensures r.latency == NaN <==> latencies == []
      ensures calculateJitter && |latencies| >= 2 ==> r.jitter.value.Num? && r.jitter.value.v >= 0.0
    {
      JittersNonNegative(jitters, latencies, calculateJitter);
      PingOutcomeShape(variant, latencies, jitters, calculateJitter);
      PingOutcome(variant, latencies, jitters, calculateJitter)
    }
  }

  /** Every PONG but the first records the time since the PING before it. */
  ghost predicate LatenciesMatch(latencies: seq<int>, pingTimes: seq<int>, pongTimes: seq<int>) {
    && |latencies| == (if |pongTimes| == 0 then 0 else |pongTimes| - 1)
    && |latencies| <= |pingTimes|
    && forall i {:trigger latencies[i]} :: 0 <= i < |latencies| ==> latencies[i] == pongTimes[i + 1] - pingTimes[i]
  }

  /** With jitter on, every latency but the first records its distance to the one before. */
  ghost predicate JittersMatch(jitters: seq<int>, latencies: seq<int>, calculateJitter: bool) {
    && |jitters| == (if calculateJitter && |latencies| >= 2 then |latencies| - 1 else 0)
    && forall i {:trigger jitters[i]} :: 0 <= i < |jitters| ==> jitters[i] == AbsInt(latencies[i + 1] - latencies[i])
  }

  lemma JittersNonNegative(jitters: seq<int>, latencies: seq<int>, calculateJitter: bool)
    requires JittersMatch(jitters, latencies, calculateJitter)
    ensures forall i :: 0 <= i < |jitters| ==> jitters[i] >= 0
  {
    forall i | 0 <= i < |jitters| ensures jitters[i] >= 0 {
      assert jitters[i] == AbsInt(latencies[i + 1] - latencies[i]);
    }
  }

  /**
   * A server that never answers: when the timer fires, the probe as written is still open
   * (its result never settles), while the corrected probe has closed.
   */
  method SilentServerAsWritten() returns (settled: bool)
    ensures !settled
  {
    var probe := new PingProbe(ServerLatencyTestRequests, false);
    probe.AutoCloseAsWritten();
    settled := probe.closed;
  }

  method SilentServer() returns (settled: bool, latency: Number)
    ensures settled && latency == NaN
  {
    var probe := new PingProbe(ServerLatencyTestRequests, false);
    probe.AutoClose();
    settled := probe.closed;
    latency := probe.Result(Current).latency;
  }

  /**
   * The result's jitter is null exactly when jitter is off; the latency is NaN exactly when
   * no latency was recorded; with jitter on and two latencies the jitter is a non-negative number.
   */
  lemma PingOutcomeShape(variant: Variant, latencies: seq<int>, jitters: seq<int>, calculateJitter: bool)
    requires forall i :: 0 <= i < |jitters| ==> jitters[i] >= 0
    ensures var r := PingOutcome(variant, latencies, jitters, calculateJitter);
            && (r.jitter.None? <==> !calculateJitter)
            && (r.latency == NaN <==> latencies == [])
            && (calculateJitter && jitters != [] ==> r.jitter.value.Num? && r.jitter.value.v >= 0.0)
  {
    if variant == CommonJs && latencies != [] {
      IqmWindowNonEmpty(|latencies|);
      assert |MiddleHalf(SortAscending(Reals(latencies)))| >= 1;
    }
    if calculateJitter && jitters != [] {
      var js := Reals(jitters);
      SumNonNegative(js);
      AverageBounds(js, 0.0, MaxOf(js));
    }
  }

  function MaxOf(values: seq<real>): (m: real)
    ensures forall i :: 0 <= i < |values| ==> values[i] <= m
    decreases |values|
  {
    if values == [] then 0.0
    else
      var rest := MaxOf(values[..|values| - 1]);
      var last := values[|values| - 1];
      if last > rest then last else rest
  }

  /** The CommonJS latency (an interquartile mean) lies between the least and largest latency. */
  lemma CommonJsLatencyWithinRange(latencies: seq<int>, lo: int, hi: int)
    requires latencies != []
    requires forall i :: 0 <= i < |latencies| ==> lo <= latencies[i] <= hi
    ensures PingOutcome(CommonJs, latencies, [], false).latency.Num?
    ensures lo as real <= PingOutcome(CommonJs, latencies, [], false).latency.v <= hi as real
  {
    IqmWithinBounds(Reals(latencies), lo as real, hi as real);
  }
}
