/**
 * `runTest` (`run` in the ESM build): choose the candidate servers, rank the measured ones,
 * take the fastest as the best server, then assemble the result from the ping, download and
 * upload measurements that the options ask for.
 */
module OoklaRun {
  import opened Wrappers
  import opened OoklaServers
  import opened OoklaEngine
  import opened OoklaPing

  /** What `runTest` resolves with (the client record from the configuration is left out). */
  datatype OoklaResult = OoklaResult(
    pingResult: PingResult,
    downloadResult: Option<TransferResult>,
    uploadResult: Option<TransferResult>,
    servers: seq<MeasurementServer>,
    bestServer: MeasurementServer,
    totalTimeMs: int)

  /** `!server && connections === "multi"` */
  predicate IsMultiConnectionTest(server: Option<MeasurementServer>, connections: string) {
    server.None? && connections == "multi"
  }

  /** `server ? [server] : listed` */
  function Candidates(server: Option<MeasurementServer>, listed: seq<MeasurementServer>): seq<MeasurementServer> {
    if server.Some? then [server.value] else listed
  }

  /** A measurement that runs only when its option is set; otherwise the field stays undefined. */
  function WhenMeasured(measure: bool, result: TransferResult): Option<TransferResult> {
    if measure then Some(result) else None
  }

  /**
   * The result for the measured candidates: the ranked shortlist and its first server.
   * With no candidate server no probe ever reports, so `prepareTestServers` never resolves
   * and `runTest` never produces a result: `None`.
   */
  function RunResult(
    measured: seq<MeasurementServer>, ping: PingResult,
    measureDownload: bool, download: TransferResult,
    measureUpload: bool, upload: TransferResult,
    elapsedMs: int): Option<OoklaResult>
  {
    var bestServers := BestServers(measured);
    if bestServers == [] then None
    else Some(OoklaResult(
      ping, WhenMeasured(measureDownload, download), WhenMeasured(measureUpload, upload),
      bestServers, bestServers[0], elapsedMs))
  }

  /** An explicit server is the only candidate and always means a single-server test. */
  lemma ExplicitServerRun(server: MeasurementServer, connections: string, listed: seq<MeasurementServer>)
    ensures Candidates(Some(server), listed) == [server]
    ensures !IsMultiConnectionTest(Some(server), connections)
  {
  }

  /**
   * The result exists exactly when some server was measured; it lists at most four servers,
   * fastest first; the best server is the first of them and no measured server is faster;
   * the download and upload results exist exactly when their options are set.
   */
  lemma RunResultShape(
    measured: seq<MeasurementServer>, ping: PingResult,
    measureDownload: bool, download: TransferResult,
    measureUpload: bool, upload: TransferResult,
    elapsedMs: int)
    ensures var r := RunResult(measured, ping, measureDownload, download, measureUpload, upload, elapsedMs);
            && (r.Some? <==> measured != [])
            && (r.Some? ==>
                  && 1 <= |r.value.servers| <= 4
                  && r.value.bestServer == r.value.servers[0]
                  && (forall i, j :: 0 <= i < j < |r.value.servers| ==> r.value.servers[i].latency <= r.value.servers[j].latency)
                  && multiset(r.value.servers) <= multiset(measured)
                  && (forall y :: y in measured ==> r.value.bestServer.latency <= y.latency)
                  && (r.value.downloadResult.Some? <==> measureDownload)
                  && (r.value.uploadResult.Some? <==> measureUpload)
                  && r.value.pingResult == ping)
  {
    var r := RunResult(measured, ping, measureDownload, download, measureUpload, upload, elapsedMs);
    BestServersShape(measured);
    if measured != [] {
      forall y | y in measured ensures r.value.bestServer.latency <= y.latency {
        BestServerIsFastest(measured, y);
      }
    }
  }
}
