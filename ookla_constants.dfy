/** The tuning constants of the Ookla engine (dist/esm/constants/ookla.js). */
module OoklaConstants {
  const DefaultServerListSize := 100
  const ServerLatencyTestRequests := 5
  const ServerLatencyTestTimeout := 15
  const LatencyTestRequests := 10
  const LatencyTestTimeout := 20
  const DownloadTestMaxConnections := 24
  const DownloadTestSize := 25000000
  const DownloadTestInitialConnections := 4
  const DownloadLatencyTestRequests := -1
  const DownloadLatencyTestTimeout := 15
  const DownloadTestDuration := 15
  const DownloadTestScalingRatio := 750000.0
  const UploadTestMaxConnections := 6
  const UploadTestSize := 25000000
  const UploadStatsListenerTimeout := 20
  const UploadTestInitialConnections := 4
  const UploadLatencyTestRequests := -1
  const UploadLatencyTestTimeout := 15
  const UploadTestDuration := 15
  const UploadTestScalingRatio := 750000.0
  /** The number of best servers `getBestServers` keeps. */
  const BestServerCount := 4
  /** Milliseconds between two ticks of a transfer test. */
  const TickIntervalMs := 750

  /** The three builds of the engine, which differ in a few rules. */
  datatype Variant =
    | Current   // src/tests/ookla.ts
    | CommonJs  // dist/commonjs/tests/ookla.js
    | Esm       // dist/esm/tests/ookla.js
}
