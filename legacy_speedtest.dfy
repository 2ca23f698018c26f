/**
 * The speedtest.net test plan of src/tests/Speedtest.ts: the configuration derived from
 * speedtest-config.php (size ladders, counts, thread numbers), the latency scoring that
 * picks the fastest server, the download and upload request lists, and the raise of the
 * upload thread count after a fast download. XML/JSON parsing, the worker threads and
 * the timing of the transfers are outside the model: their results are inputs.
 */
module LegacySpeedtest {
  import opened Wrappers
  import opened Text
  import opened Sorting
  import opened Stats
  import opened TestUtils
  import opened UploaderData

  const UploadSizes: seq<int> := [32768, 65536, 131072, 262144, 524288, 1048576, 7340032]
  const DownloadSizes: seq<int> := [350, 500, 750, 1000, 1500, 2000, 2500, 3000, 3500, 4000]
  const ProbeCount := 3
  const FailedProbeSeconds := 3600.0
  const ProbeBody := "test=test"
  const FastDownloadBitsPerSecond := 100000.0
  const FastUploadThreads := 8

  /** The numbers read from speedtest-config.php. */
  datatype Settings = Settings(
    ratio: int,             // upload.ratio
    maxChunkCount: int,     // upload.maxchunkcount
    threadsPerUrl: int,     // download.threadsperurl
    uploadThreads: int,     // upload.threads
    threadCount: int,       // server-config.threadcount
    uploadLength: real,     // upload.testlength
    downloadLength: real)   // download.testlength

  /**
   * `testConfig`. `uploadCount` and `uploadMax` are `None` when the upload ladder is empty:
   * the source then divides by zero and gets a non-finite number.
   */
  datatype TestConfig = TestConfig(
    uploadSizes: seq<int>,
    downloadSizes: seq<int>,
    uploadCount: Option<int>,
    downloadCount: int,
    uploadThreads: int,
    downloadThreads: int,
    uploadLength: real,
    downloadLength: real,
    uploadMax: Option<int>)

  /** `Math.ceil(a / b)` for b > 0. */
  function CeilDiv(a: int, b: int): int
    requires b > 0
  {
    -((-a) / b)
  }

  /** `getConfig`, after the XML has been read into `settings`. */
  function DeriveConfig(settings: Settings): TestConfig {
    var upload := JsSlice(UploadSizes, settings.ratio - 1, |UploadSizes|);
    var uploadCount := if |upload| == 0 then None else Some(CeilDiv(settings.maxChunkCount, |upload|));
    TestConfig(
      upload,
      DownloadSizes,
      uploadCount,
      settings.threadsPerUrl,
      settings.uploadThreads,
      settings.threadCount * 2,
      settings.uploadLength,
      settings.downloadLength,
      if uploadCount.Some? then Some(uploadCount.value * |upload|) else None)
  }

  /**
   * For a ratio of at most 7 the upload ladder is a non-empty tail of the size list: from
   * position ratio - 1 for a positive ratio, and counted from the end (`slice` with a
   * negative start) for a ratio <= 0, so that ratio 0 keeps only the largest size and a
   * ratio of -6 or less keeps all seven. Each size is requested ceil(maxchunkcount /
   * |ladder|) times, and the total number of upload requests is the smallest multiple of
   * the ladder length that is at least maxchunkcount. Download threads are twice the
   * thread count; counts and lengths are copied.
   */
  lemma ConfigDerivation(settings: Settings)
    requires settings.ratio <= 7
    ensures var c := DeriveConfig(settings);
            && (1 <= settings.ratio ==> c.uploadSizes == UploadSizes[settings.ratio - 1..])
            && (1 <= settings.ratio ==> |c.uploadSizes| == 8 - settings.ratio)
            && (-6 <= settings.ratio <= 0 ==> c.uploadSizes == UploadSizes[settings.ratio + 6..])
            && (settings.ratio == 0 ==> c.uploadSizes == [7340032])
            && (settings.ratio < -6 ==> c.uploadSizes == UploadSizes)
            && c.uploadSizes != []
            && c.downloadSizes == DownloadSizes
            && c.uploadCount.Some? && c.uploadMax.Some?
            && c.uploadMax.value >= settings.maxChunkCount
            && c.uploadMax.value - settings.maxChunkCount < |c.uploadSizes|
            && c.downloadThreads == 2 * settings.threadCount
            && c.uploadThreads == settings.uploadThreads
            && c.downloadCount == settings.threadsPerUrl
  {
    var c := DeriveConfig(settings);
    var n := |c.uploadSizes|;
    assert n >= 1;
    CeilDivBounds(settings.maxChunkCount, n);
  }

  /** b·ceil(a / b) is the least multiple of b that is at least a. */
  lemma CeilDivBounds(a: int, b: int)
    requires b > 0
    ensures a <= CeilDiv(a, b) * b < a + b
  {
    var q := (-a) / b;
    var r := (-a) % b;
    assert -a == q * b + r && 0 <= r < b;
    assert CeilDiv(a, b) * b == -(q * b);
  }

  /** A ratio past the end of the list leaves no upload sizes, and no upload count. */
  lemma ConfigWithoutUploadSizes(settings: Settings)
    requires settings.ratio >= 8
    ensures DeriveConfig(settings).uploadSizes == []
    ensures DeriveConfig(settings).uploadCount.None? && DeriveConfig(settings).uploadMax.None?
  {
  }

  // ---------------------------------------------------------------- request lists

  /** `count` copies of `x` (none for a count <= 0, as a `for (i = 0; i < count; i++)` loop). */
  function Replicate<T>(x: T, count: int): (r: seq<T>)
    ensures |r| == if count <= 0 then 0 else count
    ensures forall i :: 0 <= i < |r| ==> r[i] == x
    decreases if count <= 0 then 0 else count
  {
    if count <= 0 then [] else Replicate(x, count - 1) + [x]
  }

  /** The nested loops: each element in order, `count` times. */
  function Expand<T>(xs: seq<T>, count: int): seq<T>
    decreases |xs|
  {
    if xs == [] then [] else Expand(xs[..|xs| - 1], count) + Replicate(xs[|xs| - 1], count)
  }

  lemma ExpandSnoc<T>(xs: seq<T>, x: T, count: int)
    ensures Expand(xs + [x], count) == Expand(xs, count) + Replicate(x, count)
  {
    assert (xs + [x])[..|xs|] == xs;
  }

  lemma ExpandPrefixSnoc<T>(xs: seq<T>, k: int, count: int)
    requires 0 <= k < |xs|
    ensures Expand(xs[..k + 1], count) == Expand(xs[..k], count) + Replicate(xs[k], count)
  {
    assert xs[..k + 1][..k] == xs[..k];
  }

  /** The expansion has |xs|·count elements (none for count <= 0). */
  lemma {:induction false} ExpandLength<T>(xs: seq<T>, count: int)
    ensures |Expand(xs, count)| == |xs| * (if count <= 0 then 0 else count)
    decreases |xs|
  {
    if xs != [] {
      var n := |xs| - 1;
      ExpandLength(xs[..n], count);
      var c := if count <= 0 then 0 else count;
      assert |xs| * c == n * c + c;
    }
  }

  /** Block i of the expansion is `count` copies of xs[i]. */
  lemma {:induction false} ExpandBlock<T>(xs: seq<T>, count: int, i: int)
    requires count > 0 && 0 <= i < |xs|
    ensures (i + 1) * count <= |Expand(xs, count)|
    ensures Expand(xs, count)[i * count..(i + 1) * count] == Replicate(xs[i], count)
    decreases |xs|
  {
    if i == |xs| - 1 {
      ExpandLastBlock(xs, count);
    } else {
      ExpandBlock(xs[..|xs| - 1], count, i);
      ExpandEarlierBlock(xs, count, i);
    }
  }

  /** The last block of the expansion is the one the last element adds. */
  lemma ExpandLastBlock<T>(xs: seq<T>, count: int)
    requires count > 0 && xs != []
    ensures |xs| * count <= |Expand(xs, count)|
    ensures Expand(xs, count)[(|xs| - 1) * count..|xs| * count] == Replicate(xs[|xs| - 1], count)
  {
    var n := |xs| - 1;
    var prefix := Expand(xs[..n], count);
    var block := Replicate(xs[n], count);
    ExpandLength(xs[..n], count);
    BlockBounds(n, count);
    assert |xs| == n + 1;
    assert Expand(xs, count) == prefix + block;
    SliceOfConcatRight(prefix, block);
  }

  /** An earlier block is unchanged by the last element's block. */
  lemma ExpandEarlierBlock<T>(xs: seq<T>, count: int, i: int)
    requires count > 0 && 0 <= i < |xs| - 1
    requires (i + 1) * count <= |Expand(xs[..|xs| - 1], count)|
    requires Expand(xs[..|xs| - 1], count)[i * count..(i + 1) * count] == Replicate(xs[i], count)
    ensures (i + 1) * count <= |Expand(xs, count)|
    ensures Expand(xs, count)[i * count..(i + 1) * count] == Replicate(xs[i], count)
  {
    var n := |xs| - 1;
    var prefix := Expand(xs[..n], count);
    var block := Replicate(xs[n], count);
    assert Expand(xs, count) == prefix + block;
    assert xs[..n][i] == xs[i];
    BlockBounds(i, count);
    SliceOfConcatLeft(prefix, block, i * count, (i + 1) * count);
  }

  /** Block i starts at a non-negative offset and ends `count` further on. */
  lemma BlockBounds(i: nat, count: nat)
    ensures 0 <= i * count && (i + 1) * count == i * count + count
  {
  }

  lemma SliceOfConcatLeft<T>(a: seq<T>, b: seq<T>, lo: int, hi: int)
    requires 0 <= lo <= hi <= |a|
    ensures (a + b)[lo..hi] == a[lo..hi]
  {
  }

  lemma SliceOfConcatRight<T>(a: seq<T>, b: seq<T>)
    ensures (a + b)[|a|..|a| + |b|] == b
  {
  }

  // ---------------------------------------------------------------- path.dirname

  /**
   * The scan of POSIX `path.dirname` from position i down to 1: the position of the last
   * '/' that has a non-'/' character after it (trailing slashes are skipped while
   * `matchedSlash` holds), or -1 when there is none.
   */
  function DirnameEnd(p: string, i: int, matchedSlash: bool): (end: int)
    requires i < |p|
    ensures end == -1 || 1 <= end <= i
    decreases i
  {
    if i < 1 then -1
    else if p[i] == '/' then (if !matchedSlash then i else DirnameEnd(p, i - 1, true))
    else DirnameEnd(p, i - 1, false)
  }

  /** POSIX `path.dirname(p)`: "." for no directory, "/" or "//" for a root. */
  function Dirname(p: string): string {
    if |p| == 0 then "."
    else
      var hasRoot := p[0] == '/';
      var end := DirnameEnd(p, |p| - 1, true);
      if end == -1 then (if hasRoot then "/" else ".")
      else if hasRoot && end == 1 then "//"
      else p[..end]
  }

  /** Scanning a slash-free tail stops at the '/' just before it. */
  lemma {:induction false} DirnameEndOverName(p: string, slash: int, i: int, matchedSlash: bool)
    requires 1 <= slash <= i < |p| && p[slash] == '/'
    requires forall k :: slash < k < |p| ==> p[k] != '/'
    requires i > slash || !matchedSlash
    ensures DirnameEnd(p, i, matchedSlash) == slash
    decreases i
  {
    if i > slash {
      DirnameEndOverName(p, slash, i - 1, false);
    }
  }

  /**
   * The directory of `dir + "/" + name`, for a file name without '/' and a directory that
   * does not end in '/', is `dir`: for a server URL such as
   * "http://host:8080/speedtest/upload.php" it is "http://host:8080/speedtest".
   */
  lemma DirnameOfFile(dir: string, name: string)
    requires dir != [] && dir[|dir| - 1] != '/' && dir != "/"
    requires name != [] && forall k :: 0 <= k < |name| ==> name[k] != '/'
    ensures Dirname(dir + "/" + name) == dir
  {
    var p := dir + "/" + name;
    forall k | |dir| < k < |p|
      ensures p[k] != '/'
    {
      assert p[k] == name[k - |dir| - 1];
    }
    DirnameEndOverName(p, |dir|, |p| - 1, true);
    assert p[..|dir|] == dir;
  }

  /** `path.dirname(server.url) + "/random" + size + "x" + size + ".jpg"`, with the directory given. */
  function DownloadUrl(dir: string, size: int): string {
    dir + "/random" + IntToString(size) + "x" + IntToString(size) + ".jpg"
  }

  function DownloadTargets(dir: string, sizes: seq<int>): (r: seq<string>)
    ensures |r| == |sizes|
  {
    seq(|sizes|, k requires 0 <= k < |sizes| => DownloadUrl(dir, sizes[k]))
  }

  /** One planned request of a worker (`Request` in the source). */
  datatype PlannedRequest = PlannedRequest(
    url: string,
    contentLength: Option<int>,
    body: Option<string>,
    cacheBump: string,
    timeout: real,
    totalData: Option<seq<int>>)

  /** `(this.options.wait) ? this.options.timeout : testLength`. */
  function RequestTimeout(wait: bool, optionsTimeout: real, testLength: real): real {
    if wait then optionsTimeout else testLength
  }

  /** The download requests: every URL with its index as cache bump, no body. */
  function DownloadPlan(dir: string, config: TestConfig, timeout: real): seq<PlannedRequest> {
    NumberedDownloads(Expand(DownloadTargets(dir, config.downloadSizes), config.downloadCount), timeout)
  }

  function NumberedDownloads(urls: seq<string>, timeout: real): (r: seq<PlannedRequest>)
    ensures |r| == |urls|
  {
    seq(|urls|, i requires 0 <= i < |urls| => PlannedRequest(urls[i], None, None, IntToString(i), timeout, None))
  }

  /** `sizes.slice(0, uploadMax)` of the expanded ladder; empty when there is no count. */
  function UploadSizeList(config: TestConfig): seq<int> {
    if config.uploadCount.None? || config.uploadMax.None? then []
    else JsSlice(Expand(config.uploadSizes, config.uploadCount.value), 0, config.uploadMax.value)
  }

  /** What one `HTTPUploaderData(size)` yields after `preAllocate()` and `read(size)`. */
  function UploadBody(size: int): string
    requires Multiplier(size) >= 0
  {
    JsSlice(Payload(size), 0, size)
  }

  predicate UploadableSizes(sizes: seq<int>) {
    forall i :: 0 <= i < |sizes| ==> Multiplier(sizes[i]) >= 0
  }

  /** The upload requests: the fastest server's URL, content-length = size, the body read, its index as cache bump. */
  function UploadPlan(url: string, sizes: seq<int>, timeout: real): seq<PlannedRequest>
    requires UploadableSizes(sizes)
  {
    seq(|sizes|, i requires 0 <= i < |sizes| =>
      PlannedRequest(url, Some(sizes[i]), Some(UploadBody(sizes[i])), IntToString(i), timeout,
                     Some([0, |UploadBody(sizes[i])|])))
  }

  // ---------------------------------------------------------------- server scoring

  /** A server of the list; `latency` and `jitter` are written by the scoring. */
  datatype LegacyServer = LegacyServer(url: string, latency: real, jitter: Option<real>)

  function Latency(server: LegacyServer): real {
    server.latency
  }

  /** One `latency.txt` probe: status code, body and the elapsed milliseconds. */
  datatype Probe = Probe(statusCode: int, body: string, elapsedMs: int)

  /**
   * A good answer counts its elapsed seconds; an answer with another status or body counts
   * an hour. (A request that does not complete throws instead: see `GetBestServer`.)
   */
  /** Status 200 and the body "test=test" once trimmed. */
  predicate GoodAnswer(probe: Probe) {
    probe.statusCode == 200 && Trim(probe.body) == ProbeBody
  }

  function ProbeSeconds(probe: Probe): real {
    if GoodAnswer(probe) then probe.elapsedMs as real / 1000.0
    else FailedProbeSeconds
  }

  /** `(sum(totalTimes) / 6) * 1000`, without the rounding to three decimals. */
  function ScoreLatency(times: seq<real>): real {
    Sum(times) / 6.0 * 1000.0
  }

  /** `jitter(totalTimes) * 1000`; `None` when `jitter` throws (fewer than two times). */
  function ScoreJitter(times: seq<real>): Option<real> {
    var j := Avg(ConsecutiveDiffs(times));
    if j.Some? then Some(j.value * 1000.0) else None
  }

  function ProbeTimes(probes: seq<Probe>): (r: seq<real>)
    ensures |r| == |probes|
  {
    seq(|probes|, i requires 0 <= i < |probes| => ProbeSeconds(probes[i]))
  }

  function Score(server: LegacyServer, probes: seq<Probe>): LegacyServer {
    var times := ProbeTimes(probes);
    server.(latency := ScoreLatency(times), jitter := ScoreJitter(times))
  }

  function ScoreAll(servers: seq<LegacyServer>, probes: seq<seq<Probe>>): (r: seq<LegacyServer>)
    requires |probes| == |servers|
    ensures |r| == |servers|
  {
    seq(|servers|, i requires 0 <= i < |servers| => Score(servers[i], probes[i]))
  }

  /** Every probe of a server completed (`None` is a request that threw). */
  predicate Answered(answers: seq<Option<Probe>>) {
    forall i :: 0 <= i < |answers| ==> answers[i].Some?
  }

  function AnsweredProbes(answers: seq<Option<Probe>>): (r: seq<Probe>)
    requires Answered(answers)
    ensures |r| == |answers|
  {
    seq(|answers|, i requires 0 <= i < |answers| => answers[i].value)
  }

  /** Every probe of every server completed. */
  predicate AllAnswered(answers: seq<seq<Option<Probe>>>) {
    forall j :: 0 <= j < |answers| ==> Answered(answers[j])
  }

  /** The answers of servers all of whose probes completed. */
  function AllProbes(answers: seq<seq<Option<Probe>>>): (r: seq<seq<Probe>>)
    requires AllAnswered(answers)
    ensures |r| == |answers|
  {
    seq(|answers|, j requires 0 <= j < |answers| => AnsweredProbes(answers[j]))
  }

  /** The first server with a probe that threw, or the number of servers when there is none. */
  function FirstUnanswered(answers: seq<seq<Option<Probe>>>): (k: nat)
    ensures k <= |answers|
    ensures forall j :: 0 <= j < k ==> Answered(answers[j])
    ensures AllAnswered(answers[..k])
    ensures k < |answers| ==> !Answered(answers[k])
  {
    if answers == [] then 0
    else if !Answered(answers[0]) then 0
    else
      var k := 1 + FirstUnanswered(answers[1..]);
      assert answers[..k] == [answers[0]] + answers[1..][..k - 1];
      k
  }

  /** A server before the first failure whose probes all completed moves the scored prefix on. */
  lemma AnsweredExtends(answers: seq<seq<Option<Probe>>>, k: int)
    requires 0 <= k < |answers| && k <= FirstUnanswered(answers) && Answered(answers[k])
    ensures k + 1 <= FirstUnanswered(answers)
    ensures AllAnswered(answers[..k + 1])
  {
    var n := FirstUnanswered(answers);
    assert answers[..k + 1] == answers[..n][..k + 1];
  }

  lemma UpdateAfterPrefix<T>(a: seq<T>, b: seq<T>, x: T)
    requires b != []
    ensures (a + b)[|a| := x] == a + [x] + b[1..]
  {
  }

  lemma ProbeTimesSnoc(answers: seq<Option<Probe>>, i: int)
    requires 0 <= i < |answers| && Answered(answers[..i + 1])
    ensures Answered(answers[..i])
    ensures ProbeTimes(AnsweredProbes(answers[..i + 1]))
         == ProbeTimes(AnsweredProbes(answers[..i])) + [ProbeSeconds(answers[i].value)]
  {
    assert answers[..i + 1][i] == answers[i];
    assert forall j :: 0 <= j < i ==> answers[..i + 1][j] == answers[..i][j];
  }

  /** Scoring one more server extends the scored prefix by that server. */
  lemma ScoreAllSnoc(servers: seq<LegacyServer>, answers: seq<seq<Option<Probe>>>, k: int)
    requires 0 <= k < |servers| == |answers|
    requires AllAnswered(answers[..k + 1])
    ensures AllAnswered(answers[..k])
    ensures ScoreAll(servers[..k + 1], AllProbes(answers[..k + 1]))
         == ScoreAll(servers[..k], AllProbes(answers[..k])) + [Score(servers[k], AnsweredProbes(answers[k]))]
  {
    assert answers[..k] == answers[..k + 1][..k];
    assert answers[k] == answers[..k + 1][k];
    var a := ScoreAll(servers[..k + 1], AllProbes(answers[..k + 1]));
    var b := ScoreAll(servers[..k], AllProbes(answers[..k])) + [Score(servers[k], AnsweredProbes(answers[k]))];
    assert |a| == |b|;
    forall j | 0 <= j < |a|
      ensures a[j] == b[j]
    {
      if j < k {
        assert answers[..k + 1][j] == answers[..k][j];
      } else {
        assert answers[..k + 1][j] == answers[k];
      }
    }
  }

  /** Three answered probes give half the mean round-trip time in milliseconds. */
  lemma AnsweredProbesLatency(probes: seq<Probe>)
    requires |probes| == ProbeCount
    requires forall i :: 0 <= i < 3 ==> GoodAnswer(probes[i])
    ensures ScoreLatency(ProbeTimes(probes))
         == (probes[0].elapsedMs + probes[1].elapsedMs + probes[2].elapsedMs) as real / 6.0
  {
    var t := ProbeTimes(probes);
    SumThree(t);
  }

  /** Three failed probes give 3·3600 s / 6, i.e. 1 800 000 ms. */
  lemma FailedProbesLatency(probes: seq<Probe>)
    requires |probes| == ProbeCount
    requires forall i :: 0 <= i < 3 ==> probes[i].statusCode != 200
    ensures ScoreLatency(ProbeTimes(probes)) == 1800000.0
  {
    SumThree(ProbeTimes(probes));
  }

  lemma SumThree(t: seq<real>)
    requires |t| == 3
    ensures Sum(t) == t[0] + t[1] + t[2]
  {
    SumPrefix(t, 1);
    SumPrefix(t, 2);
    SumPrefix(t, 3);
    assert t[..0] == [] && t[..3] == t;
  }

  /**
   * A server whose three probes were all answered within one hour in total ranks strictly
   * before a server with a failed probe (and non-negative elapsed times).
   */
  lemma FailedProbeRanksLater(good: seq<Probe>, bad: seq<Probe>, k: int)
    requires |good| == ProbeCount && |bad| == ProbeCount && 0 <= k < 3
    requires forall i :: 0 <= i < 3 ==> GoodAnswer(good[i]) && 0 <= good[i].elapsedMs
    requires good[0].elapsedMs + good[1].elapsedMs + good[2].elapsedMs < 3600000
    requires forall i :: 0 <= i < 3 ==> bad[i].elapsedMs >= 0
    requires bad[k].statusCode != 200
    ensures ScoreLatency(ProbeTimes(good)) < ScoreLatency(ProbeTimes(bad))
  {
    AnsweredProbesLatency(good);
    var b := ProbeTimes(bad);
    SumThree(b);
    forall i | 0 <= i < 3
      ensures 0.0 <= b[i]
    {
      ProbeSecondsNonNegative(bad[i]);
    }
    assert b[k] == FailedProbeSeconds;
    SumThreeAtLeastOne(b, k);
    var total := Sum(b);
    assert total >= 3600.0;
    assert total / 6.0 >= 600.0;
    assert ScoreLatency(b) >= 600000.0;
    var e := good[0].elapsedMs + good[1].elapsedMs + good[2].elapsedMs;
    assert e as real < 3600000.0;
    assert ScoreLatency(ProbeTimes(good)) == e as real / 6.0 < 600000.0;
  }

  lemma SumThreeAtLeastOne(t: seq<real>, k: int)
    requires |t| == 3 && 0 <= k < 3
    requires forall i :: 0 <= i < 3 ==> 0.0 <= t[i]
    ensures t[0] + t[1] + t[2] >= t[k]
  {
  }

  lemma ProbeSecondsNonNegative(probe: Probe)
    requires probe.elapsedMs >= 0
    ensures ProbeSeconds(probe) >= 0.0
  {
  }

  /** Three probes always give a jitter, and it is non-negative. */
  lemma ProbeJitterDefined(probes: seq<Probe>)
    requires |probes| == ProbeCount
    ensures ScoreJitter(ProbeTimes(probes)).Some?
    ensures ScoreJitter(ProbeTimes(probes)).value >= 0.0
  {
    JitterNonNegative(ProbeTimes(probes));
  }

  // ---------------------------------------------------------------- the plan object

  /** The fields of the `Speedtest` class that the plan derivation assigns. */
  class SpeedtestPlan {
    var testConfig: Option<TestConfig>
    var servers: seq<LegacyServer>
    var fastestServer: Option<LegacyServer>

    constructor()
      ensures testConfig == None && servers == [] && fastestServer == None
    {
      testConfig := None;
      servers := [];
      fastestServer := None;
    }

    /** `getConfig()` once the XML is read. */
    method GetConfig(settings: Settings)
      modifies this
      ensures testConfig == Some(DeriveConfig(settings))
      ensures servers == old(servers) && fastestServer == old(fastestServer)
    {
      testConfig := Some(DeriveConfig(settings));
    }

    /** `getServersList()` once the JSON is read (the mile-to-kilometre conversion is left out). */
    method GetServersList(fetched: seq<LegacyServer>)
      modifies this
      ensures servers == fetched
      ensures testConfig == old(testConfig) && fastestServer == old(fastestServer)
    {
      servers := fetched;
    }

    /**
     * `getBestServer()`: scores every server from its three probes (`answers[i]` are the
     * outcomes for `servers[i]`, in order), sorts the list in place by latency and takes its
     * head. A probe that throws ends the scoring (`ok` is false): the servers before it keep
     * their new scores, the list is not sorted and the fastest server is not set.
     */
    method GetBestServer(answers: seq<seq<Option<Probe>>>) returns (ok: bool)
      requires |answers| == |servers|
      requires forall i :: 0 <= i < |answers| ==> |answers[i]| == ProbeCount
      modifies this
      ensures ok <==> FirstUnanswered(answers) == |answers|
      ensures ok ==> servers == SortBy(ScoreAll(old(servers), AllProbes(answers)), Latency)
      ensures ok ==> fastestServer == if servers == [] then None else Some(servers[0])
      ensures !ok ==> var k := FirstUnanswered(answers);
                      && servers == ScoreAll(old(servers)[..k], AllProbes(answers[..k])) + old(servers)[k..]
                      && fastestServer == old(fastestServer)
      ensures testConfig == old(testConfig)
    {
      var scored;
      ok, scored := ScoreServers(servers, answers);
      if ok {
        servers := SortBy(scored, Latency);
        fastestServer := if servers == [] then None else Some(servers[0]);
      } else {
        servers := scored;
      }
    }

    /**
     * `testDownloadSpeed()` up to the hand-off to the workers: the URLs are built in the
     * directory of the fastest server's URL, and each request waits `options.timeout` when
     * `wait` is set and the download test length otherwise.
     */
    method DownloadRequests(wait: bool, optionsTimeout: real) returns (requests: seq<PlannedRequest>)
      requires testConfig.Some? && fastestServer.Some?
      ensures requests == DownloadPlan(Dirname(fastestServer.value.url), testConfig.value,
                                       RequestTimeout(wait, optionsTimeout, testConfig.value.downloadLength))
    {
      var config := testConfig.value;
      var timeout := if wait then optionsTimeout else config.downloadLength;
      var urls := BuildDownloadUrls(Dirname(fastestServer.value.url), config.downloadSizes, config.downloadCount);
      requests := [];
      var i := 0;
      while i < |urls|
        invariant 0 <= i <= |urls|
        invariant requests == NumberedDownloads(urls[..i], timeout)
      {
        NumberedDownloadsSnoc(urls, i, timeout);
        requests := requests + [PlannedRequest(urls[i], None, None, IntToString(i), timeout, None)];
        i := i + 1;
      }
      assert urls[..i] == urls;
    }

    /**
     * `testUploadSpeed()` up to the hand-off to the workers: every request goes to the
     * fastest server's URL and waits `options.timeout` when `wait` is set and the upload
     * test length otherwise.
     */
    method UploadRequests(wait: bool, optionsTimeout: real) returns (requests: seq<PlannedRequest>)
      requires testConfig.Some? && fastestServer.Some?
      requires UploadableSizes(testConfig.value.uploadSizes)
      ensures UploadableSizes(UploadSizeList(testConfig.value))
      ensures requests == UploadPlan(fastestServer.value.url, UploadSizeList(testConfig.value),
                                     RequestTimeout(wait, optionsTimeout, testConfig.value.uploadLength))
    {
      var config := testConfig.value;
      var url := fastestServer.value.url;
      var timeout := if wait then optionsTimeout else config.uploadLength;
      var sizes: seq<int> := [];
      if config.uploadCount.Some? {
        sizes := BuildUploadSizes(config.uploadSizes, config.uploadCount.value);
      }
      var planned := if config.uploadMax.Some? then JsSlice(sizes, 0, config.uploadMax.value) else [];
      assert planned == UploadSizeList(config);
      ExpandedSizesUploadable(config);
      requests := [];
      var i := 0;
      while i < |planned|
        invariant 0 <= i <= |planned|
        invariant requests == UploadPlan(url, planned[..i], timeout)
      {
        var size := planned[i];
        var data := new HTTPUploaderData(size);
        var ok := data.PreAllocate();
        var body := data.Read(size);
        assert body == Some(UploadBody(size)) && data.total == [0, |UploadBody(size)|];
        UploadPlanSnoc(url, planned, i, timeout);
        requests := requests + [PlannedRequest(url, Some(size), body, IntToString(i), timeout, Some(data.total))];
        i := i + 1;
      }
      assert planned[..i] == planned;
    }

    /**
     * The end of `testDownloadSpeed()`: a throughput above 100 000 bit/s sets the upload
     * thread count to 8. `elapsedMs` is end - start; a zero elapsed time gives an infinite
     * throughput for a non-zero byte count, and NaN otherwise.
     */
    method AfterDownload(bytesReceived: int, elapsedMs: real)
      requires testConfig.Some?
      modifies this
      ensures testConfig == Some(
        if FastDownload(bytesReceived, elapsedMs)
        then old(testConfig.value).(uploadThreads := FastUploadThreads)
        else old(testConfig.value))
      ensures servers == old(servers) && fastestServer == old(fastestServer)
    {
      if FastDownload(bytesReceived, elapsedMs) {
        testConfig := Some(testConfig.value.(uploadThreads := FastUploadThreads));
      }
    }
  }

  /**
   * The scoring loop of `getBestServer()`: the servers are scored in order until a probe
   * throws; `scored` holds the scored servers before that probe and the rest as they were.
   */
  method ScoreServers(servers: seq<LegacyServer>, answers: seq<seq<Option<Probe>>>)
    returns (ok: bool, scored: seq<LegacyServer>)
    requires |answers| == |servers|
    requires forall i :: 0 <= i < |answers| ==> |answers[i]| == ProbeCount
    ensures ok <==> FirstUnanswered(answers) == |answers|
    ensures ok ==> AllAnswered(answers) && scored == ScoreAll(servers, AllProbes(answers))
    ensures var k := FirstUnanswered(answers);
            scored == ScoreAll(servers[..k], AllProbes(answers[..k])) + servers[k..]
  {
    scored := servers;
    var k := 0;
    while k < |servers|
      invariant 0 <= k <= |servers|
      invariant k <= FirstUnanswered(answers)
      invariant scored == ScoreAll(servers[..k], AllProbes(answers[..k])) + servers[k..]
    {
      var totalTimes: seq<real> := [];
      var i := 0;
      while i < ProbeCount
        invariant 0 <= i <= ProbeCount
        invariant Answered(answers[k][..i])
        invariant totalTimes == ProbeTimes(AnsweredProbes(answers[k][..i]))
      {
        if answers[k][i].None? {
          return false, scored;
        }
        ProbeTimesSnoc(answers[k], i);
        totalTimes := totalTimes + [ProbeSeconds(answers[k][i].value)];
        i := i + 1;
      }
      assert answers[k][..ProbeCount] == answers[k];
      AnsweredExtends(answers, k);
      ScoreAllSnoc(servers, answers, k);
      var next := servers[k].(latency := ScoreLatency(totalTimes), jitter := ScoreJitter(totalTimes));
      UpdateAfterPrefix(ScoreAll(servers[..k], AllProbes(answers[..k])), servers[k..], next);
      assert servers[k..][1..] == servers[k + 1..];
      scored := scored[k := next];
      k := k + 1;
    }
    assert servers[..k] == servers && answers[..k] == answers && servers[k..] == [];
    ok := true;
  }

  /** The download loops: every size in order, `count` times, as its URL. */
  method BuildDownloadUrls(dir: string, sizes: seq<int>, count: int) returns (urls: seq<string>)
    ensures urls == Expand(DownloadTargets(dir, sizes), count)
  {
    ghost var targets := DownloadTargets(dir, sizes);
    urls := [];
    var k := 0;
    while k < |sizes|
      invariant 0 <= k <= |sizes|
      invariant urls == Expand(targets[..k], count)
    {
      var url := DownloadUrl(dir, sizes[k]);
      assert url == targets[k];
      var i := 0;
      while i < count
        invariant 0 <= i && (count > 0 ==> i <= count) && (count <= 0 ==> i == 0)
        invariant urls == Expand(targets[..k], count) + Replicate(url, i)
      {
        ConcatAssoc(Expand(targets[..k], count), Replicate(url, i), [url]);
        urls := urls + [url];
        i := i + 1;
      }
      ExpandPrefixSnoc(targets, k, count);
      k := k + 1;
    }
    assert targets[..k] == targets;
  }

  /** The upload loops: every ladder size in order, `count` times. */
  method BuildUploadSizes(ladder: seq<int>, count: int) returns (sizes: seq<int>)
    ensures sizes == Expand(ladder, count)
  {
    sizes := [];
    var k := 0;
    while k < |ladder|
      invariant 0 <= k <= |ladder|
      invariant sizes == Expand(ladder[..k], count)
    {
      var i := 0;
      while i < count
        invariant 0 <= i && (count > 0 ==> i <= count) && (count <= 0 ==> i == 0)
        invariant sizes == Expand(ladder[..k], count) + Replicate(ladder[k], i)
      {
        ConcatAssoc(Expand(ladder[..k], count), Replicate(ladder[k], i), [ladder[k]]);
        sizes := sizes + [ladder[k]];
        i := i + 1;
      }
      ExpandPrefixSnoc(ladder, k, count);
      k := k + 1;
    }
    assert ladder[..k] == ladder;
  }

  lemma UploadPlanSnoc(url: string, sizes: seq<int>, i: int, timeout: real)
    requires 0 <= i < |sizes| && UploadableSizes(sizes)
    ensures UploadableSizes(sizes[..i]) && UploadableSizes(sizes[..i + 1])
    ensures UploadPlan(url, sizes[..i + 1], timeout)
         == UploadPlan(url, sizes[..i], timeout)
            + [PlannedRequest(url, Some(sizes[i]), Some(UploadBody(sizes[i])), IntToString(i), timeout,
                              Some([0, |UploadBody(sizes[i])|]))]
  {
  }

  /** Every size of an uploadable ladder stays uploadable after expansion and slicing. */
  lemma ExpandedSizesUploadable(config: TestConfig)
    requires UploadableSizes(config.uploadSizes)
    ensures UploadableSizes(UploadSizeList(config))
  {
    if config.uploadCount.Some? && config.uploadMax.Some? {
      var e := Expand(config.uploadSizes, config.uploadCount.value);
      ExpandMembers(config.uploadSizes, config.uploadCount.value);
      var s := JsSlice(e, 0, config.uploadMax.value);
      forall i | 0 <= i < |s| ensures Multiplier(s[i]) >= 0 {
        SliceMember(e, config.uploadMax.value, i);
      }
    }
  }

  lemma SliceMember<T>(s: seq<T>, end: int, i: int)
    requires 0 <= i < |JsSlice(s, 0, end)|
    ensures JsSlice(s, 0, end)[i] in s
  {
  }

  lemma {:induction false} ExpandMembers<T>(xs: seq<T>, count: int)
    ensures forall y :: y in Expand(xs, count) ==> y in xs
    decreases |xs|
  {
    if xs != [] {
      var n := |xs| - 1;
      ExpandMembers(xs[..n], count);
      forall y | y in Expand(xs, count) ensures y in xs {
        if y in Expand(xs[..n], count) {
          assert y in xs[..n];
        }
      }
    }
  }

  /** `download = bytesReceived / ((end - start) / 1000) * 8` exceeds 100 000. */
  predicate FastDownload(bytesReceived: int, elapsedMs: real) {
    if elapsedMs > 0.0 then (bytesReceived as real / (elapsedMs / 1000.0)) * 8.0 > FastDownloadBitsPerSecond
    else elapsedMs == 0.0 && bytesReceived > 0
  }

  /** For a positive elapsed time the test is 8000·bytes > 100 000·elapsed milliseconds. */
  lemma FastDownloadThreshold(bytesReceived: int, elapsedMs: real)
    requires elapsedMs > 0.0
    ensures FastDownload(bytesReceived, elapsedMs) <==> 8000.0 * bytesReceived as real > 100000.0 * elapsedMs
  {
    var b := bytesReceived as real;
    var t := elapsedMs / 1000.0;
    assert b / t * 8.0 == 8000.0 * b / elapsedMs;
    DivideCompare(8000.0 * b, elapsedMs, 100000.0);
  }

  lemma DivideCompare(a: real, d: real, k: real)
    requires d > 0.0
    ensures a / d > k <==> a > k * d
  {
    var q := a / d;
    assert q * d == a;
    if q > k {
      assert q * d > k * d;
    } else {
      assert q * d <= k * d;
    }
  }

  // ---------------------------------------------------------------- plan properties

  /**
   * The download list holds, for each of the ten sizes in order, `threadsperurl` copies of
   * its URL: 10·count requests, request i·count + j fetching size i, with cache bump its index.
   */
  lemma DownloadPlanShape(dir: string, config: TestConfig, timeout: real, i: int, j: int)
    requires config.downloadCount > 0
    requires 0 <= i < |config.downloadSizes| && 0 <= j < config.downloadCount
    ensures |DownloadPlan(dir, config, timeout)| == |config.downloadSizes| * config.downloadCount
    ensures 0 <= i * config.downloadCount + j < |DownloadPlan(dir, config, timeout)|
    ensures DownloadPlan(dir, config, timeout)[i * config.downloadCount + j]
         == PlannedRequest(DownloadUrl(dir, config.downloadSizes[i]), None, None,
                           IntToString(i * config.downloadCount + j), timeout, None)
  {
    var c := config.downloadCount;
    var targets := DownloadTargets(dir, config.downloadSizes);
    var urls := Expand(targets, c);
    var index := i * c + j;
    ExpandAt(targets, c, i, j);
    ExpandLength(targets, c);
    assert |urls| == |config.downloadSizes| * c;
    assert urls[index] == DownloadUrl(dir, config.downloadSizes[i]);
    NumberedDownloadAt(urls, timeout, index);
  }

  lemma NumberedDownloadsSnoc(urls: seq<string>, i: int, timeout: real)
    requires 0 <= i < |urls|
    ensures NumberedDownloads(urls[..i + 1], timeout)
         == NumberedDownloads(urls[..i], timeout) + [PlannedRequest(urls[i], None, None, IntToString(i), timeout, None)]
  {
  }

  lemma NumberedDownloadAt(urls: seq<string>, timeout: real, index: int)
    requires 0 <= index < |urls|
    ensures NumberedDownloads(urls, timeout)[index]
         == PlannedRequest(urls[index], None, None, IntToString(index), timeout, None)
  {
  }

  /** Element i·count + j of the expansion is xs[i]. */
  lemma ExpandAt<T>(xs: seq<T>, count: int, i: int, j: int)
    requires count > 0 && 0 <= i < |xs| && 0 <= j < count
    ensures 0 <= i * count + j < |Expand(xs, count)|
    ensures Expand(xs, count)[i * count + j] == xs[i]
  {
    ExpandBlock(xs, count, i);
    BlockBounds(i, count);
    var e := Expand(xs, count);
    var lo := i * count;
    assert e[lo + j] == e[lo..lo + count][j];
  }

  /** A zero or negative `threadsperurl` plans no downloads. */
  lemma DownloadPlanEmpty(dir: string, config: TestConfig, timeout: real)
    requires config.downloadCount <= 0
    ensures DownloadPlan(dir, config, timeout) == []
  {
    ExpandLength(DownloadTargets(dir, config.downloadSizes), config.downloadCount);
  }

  /**
   * Slicing the expanded upload list to uploadMax keeps all of it: with a non-negative
   * count there are exactly uploadMax upload requests, otherwise none.
   */
  lemma UploadSizeListLength(settings: Settings)
    requires settings.ratio <= 7
    ensures var c := DeriveConfig(settings);
            && c.uploadCount.Some? && c.uploadMax.Some?
            && (c.uploadCount.value >= 0 ==> UploadSizeList(c) == Expand(c.uploadSizes, c.uploadCount.value))
            && |UploadSizeList(c)| == if c.uploadMax.value < 0 then 0 else c.uploadMax.value
  {
    var c := DeriveConfig(settings);
    ConfigDerivation(settings);
    var n := |c.uploadSizes|;
    var k := c.uploadCount.value;
    var e := Expand(c.uploadSizes, k);
    ExpandLength(c.uploadSizes, k);
    assert c.uploadMax.value == k * n;
    ProductSign(k, n);
    assert UploadSizeList(c) == JsSlice(e, 0, k * n);
  }

  /** With a positive factor n, k·n has the sign of k. */
  lemma ProductSign(k: int, n: int)
    requires n > 0
    ensures k < 0 <==> k * n < 0
    ensures k * n == n * k
  {
  }

  /**
   * Every upload size of the ladder can be allocated, and each body read back has the
   * declared content-length — except 65536, whose body is 65529 characters long.
   */
  lemma UploadBodiesMatchContentLength()
    ensures UploadableSizes(UploadSizes)
    ensures forall i :: 0 <= i < |UploadSizes| ==>
              (|UploadBody(UploadSizes[i])| == UploadSizes[i] <==> UploadSizes[i] != 65536)
  {
    forall i | 0 <= i < |UploadSizes|
      ensures Multiplier(UploadSizes[i]) >= 0
      ensures |UploadBody(UploadSizes[i])| == UploadSizes[i] <==> UploadSizes[i] != 65536
    {
      var s := UploadSizes[i];
      PayloadLength(s);
      PayloadShortExactly(s);
    }
  }
}
