# universal-speedtest, modelled in Dafny

This project models the computational core of `universal-speedtest`, a TypeScript library that measures
Internet latency, download and upload speed against speedtest.net (Ookla) servers.

**Ookla engine.** The model covers the engine of `src/tests/ookla.ts` and its two compiled variants:
`dist/commonjs/tests/ookla.js` and the older `dist/esm/tests/ookla.js`. It models these parts:
- the server shortlist (`getBestServers`);
- the parallel latency probes that join every candidate server (`prepareTestServers`, and `getServersList` in the ESM build);
- the WebSocket ping probe (`measurePing`), as a state machine driven by message events;
- the upload-statistics listener, which turns the server's cumulative byte counter into deltas;
- the adaptive download and upload controllers, with a connection cap, global and per-server counters, least-loaded server choice and a 750 ms tick;
- the trimmed-mean final speed;
- the assembly of the result of `runTest`.

The three builds differ in a few rules:
- the close handler of the CommonJS build reports the interquartile mean of the latencies;
- the CommonJS single-server download only tops up;
- the ESM build has no top-up phase, always spreads downloads over the ranked servers, and decrements an upload connection only when its request fails.

A `Variant` value selects these rules.

**Statistics helpers and the legacy test.** Two modules model the statistics helpers:
- `dist/commonjs/utils/tests.js`: `sum`, `average`, `calculateIqm`;
- `src/utils/tests.ts`: `sum`, `avg`, `jitter`, `getQuartile`.

The model also covers the legacy speedtest.net test plan of `src/tests/Speedtest.ts`: configuration ladders, server scoring, and the download and upload request lists. It covers the payload buffers `HTTPUploaderData` and `HTTPDownloader`, and the two `createRequest` URL and option builders.

**Modelling choices.**
- Events become methods of classes whose fields are the source's mutable state. Timestamps (`Date.now()`) and message contents are parameters.
- In-place sorts of the caller's array are methods over an `array`, specified by a stable insertion sort on sequences.
- Numbers are exact reals or integers, and JavaScript's `NaN` (what `0/0` gives) is a value of its own.
- `None` stands for `null` or `undefined`, and for a call that throws.

**Three behaviours are modelled as written:**
- A tick divides by the elapsed time without a guard. The model states a positive elapsed time as a precondition rather than a clamp.
- The auto-close timers of the probes never close anything (see Findings).
- In the ESM build a successful upload never decrements the connection counter.

## Model

| member | source | states |
|---|---|---|
| Sorting.SortBy | src/tests/ookla.ts:237 | `Array.prototype.sort` with a numeric comparator: the result is a permutation of the input (same length, same multiset) sorted by the key |
| Sorting.InsertSorted | src/tests/ookla.ts:237 | inserting into a key-sorted list keeps it sorted (the step of the stable sort) |
| Sorting.SortByStable | src/tests/ookla.ts:237 | the sort is stable: for every key value, the elements carrying it keep their input order (ties keep directory order) |
| Sorting.SortedHeadLeast | src/tests/ookla.ts:412-413 | the first element of a sorted list has the least key of all its elements (`.at(0)` after the sort) |
| Sorting.SortedUnique | dist/commonjs/utils/tests.js:39 | with an injective key, two sorted permutations of each other are equal |
| Sorting.SortByUnique | dist/commonjs/utils/tests.js:39 | any sorted permutation of a list is its sort |
| Sorting.SortBySorted | src/tests/ookla.ts:237 | sorting a list that is already sorted leaves it unchanged |
| Sorting.SortAscending | dist/commonjs/utils/tests.js:39 | `sort((a, b) => a - b)`: an ascending permutation of the input |
| Sorting.SortDescending | src/tests/ookla.ts:615 | `sort((a, b) => b - a)`: a descending permutation of the input |
| Sorting.SortAscendingPermutation | dist/commonjs/utils/tests.js:39 | the ascending sort depends only on the multiset of the input |
| Sorting.SortDescendingPermutation | src/tests/ookla.ts:615 | the descending sort depends only on the multiset of the input |
| Sorting.SortAscendingUnique | src/utils/tests.ts:64 | every ascending permutation of the input equals its ascending sort |
| Sorting.SortDescendingUnique | src/tests/ookla.ts:615 | every descending permutation of the input equals its descending sort |
| Text.JsSlice | src/helpers/HTTPUploaderData.ts:46 | `slice(start, end)`: within bounds it is the plain subsequence; never longer than the input |
| Text.Repeat | src/helpers/HTTPUploaderData.ts:22 | `repeat(count)` has `count` times the length of the string |
| Text.RepeatPeriodic | src/helpers/HTTPUploaderData.ts:22 | a repeated string repeats itself every `|s|` characters |
| Text.Trim | src/tests/Speedtest.ts:179 | `trim()` is the infix `s[i..j]` with only whitespace (the ECMAScript WhiteSpace and LineTerminator characters) before i and after j, and no whitespace at either end of the result |
| Text.ContainsAppend | src/helpers/UrllibHelper.ts:25 | `includes` finds an occurrence in either part of a concatenation |
| Stats.SumConcat | dist/commonjs/utils/tests.js:13-15 | the fold from 0 is additive over concatenation (so `sum([]) == 0` and `sum(xs + [x]) == sum(xs) + x`) |
| Stats.SumIntsConcat | dist/commonjs/utils/tests.js:13-15 | the same additivity for integer counters |
| Stats.SumBounds | dist/commonjs/utils/tests.js:13-15 | values within [lo, hi] put the sum within [n·lo, n·hi] |
| Stats.SumNonNegative | dist/commonjs/utils/tests.js:13-15 | a sum of non-negative values is non-negative |
| Stats.Average | dist/commonjs/utils/tests.js:23-30 | `average` is NaN exactly for the empty list (0/0) |
| Stats.AverageBounds | dist/commonjs/utils/tests.js:23-30 | the average of a non-empty list is a number between any lower and upper bound of its values |
| Stats.UpperQuartileIndex | dist/commonjs/utils/tests.js:40-41 | `ceil(0.75 n)` lies between `floor(0.25 n)` and `n`, so the slice is well formed |
| Stats.CalculateIqm | dist/commonjs/utils/tests.js:38-48 | `calculateIqm` sorts the caller's array ascending in place and returns the mean of sorted[floor(n/4) .. ceil(3n/4)) |
| Stats.IqmWindowNonEmpty | dist/commonjs/utils/tests.js:40-42 | for n >= 1 the retained window has at least one element |
| Stats.IqmWindowExcludesExtremes | dist/commonjs/utils/tests.js:40-42 | for n >= 4 neither the smallest nor the largest sorted value is retained |
| Stats.IqmWithinBounds | dist/commonjs/utils/tests.js:38-43 | the IQM of a non-empty list is a number between its minimum and maximum (any bounds) |
| Stats.IqmPermutationInvariant | dist/commonjs/utils/tests.js:39 | the IQM depends only on the multiset of the input |
| Stats.IqmIgnoresLargest | dist/commonjs/utils/tests.js:40-42 | for four or more values, replacing the largest value by any other largest value leaves the IQM unchanged |
| Stats.MiddleHalfIgnoresLast | dist/commonjs/utils/tests.js:42 | with four or more values the last sorted value is outside the window |
| Stats.SortedPlusLargest | dist/commonjs/utils/tests.js:39 | sorting a list that ends with its maximum sorts the rest and keeps the maximum last |
| Stats.IqmSuppressesOutlierExample | dist/commonjs/utils/tests.js:38-48 | for probes 10, 12, 11, 13, 500 ms the IQM is 12 while the mean is 109.2 |
| TestUtils.ReduceFirst | src/utils/tests.ts:42 | `reduce` without a seed throws (None) exactly on the empty list |
| TestUtils.ReduceFirstIsSum | src/utils/tests.ts:42 | on a non-empty list the unseeded fold equals `sum` (the fold from 0) |
| TestUtils.Avg | src/utils/tests.ts:41-43 | `avg` throws exactly on the empty list |
| TestUtils.AvgIsSixthOfMean | src/utils/tests.ts:41-43 | `avg(values)` is one sixth of `sum(values) / values.length` |
| TestUtils.Jitter | src/utils/tests.ts:49-56 | the index loop collects the absolute differences of neighbours and returns their `avg` |
| TestUtils.DiffsExtensional | src/utils/tests.ts:52-53 | any list of `|values[i] - values[i + 1]|` for every i is the difference list |
| TestUtils.JitterNonNegative | src/utils/tests.ts:49-56 | there are n - 1 differences; the jitter is defined exactly for two or more values and is then non-negative |
| TestUtils.GetQuartile | src/utils/tests.ts:63-73 | `getQuartile` sorts the caller's array ascending in place and returns the interpolated value at (n - 1)·p |
| TestUtils.PositionInRange | src/utils/tests.ts:65-66 | for 0 <= p <= 1 the position and its floor are valid indices |
| TestUtils.InterpolateBetween | src/utils/tests.ts:70 | `a + t·(b - a)` with t in [0, 1] lies between any bounds of a and b |
| TestUtils.ValueAtWithinBounds | src/utils/tests.ts:69-72 | the value at an in-range position lies between any bounds of the entries |
| TestUtils.InterpolationWithinBounds | src/utils/tests.ts:64-72 | the percentile of a sorted non-empty list lies between any bounds of its entries |
| TestUtils.QuartileWithinBounds | src/utils/tests.ts:63-73 | for 0 <= p <= 1 and a non-empty list the percentile is defined and lies between its minimum and maximum |
| TestUtils.QuartileZeroIsMinimum | src/utils/tests.ts:63-73 | `getQuartile(t, 0)` is an element of t and no element is smaller |
| TestUtils.QuartileOneIsMaximum | src/utils/tests.ts:63-73 | `getQuartile(t, 1)` is an element of t and no element is larger |
| RequestBuilders.HeaderBag.Stamp | src/helpers/UrllibHelper.ts:22-23 | writes `user-agent` and `cache-control: no-cache` into the caller's headers and changes nothing else |
| RequestBuilders.MergeHeaders | src/helpers/UrllibHelper.ts:29-32 | the spread merge has the keys of both; an option header wins, other headers are kept |
| RequestBuilders.UrllibMethod | src/helpers/UrllibHelper.ts:26 | POST exactly when `typeof data !== "object"` (so the default `{}` and `null` give GET) |
| RequestBuilders.UrllibCreateRequest | src/helpers/UrllibHelper.ts:21-33 | stamps the caller's headers, then builds the urllib request from the stamped headers |
| RequestBuilders.CatchToNull | src/helpers/UrllibHelper.ts:34-36 | a rejected request resolves to null, a response passes through |
| RequestBuilders.BumpSuffixParts | src/helpers/UrllibHelper.ts:25 | the bump suffix is "&" when the URL has a "?" (else "?"), then "x=", the timestamp and the bump |
| RequestBuilders.UrllibUrlKeepsUrl | src/helpers/UrllibHelper.ts:25 | a URL starting with ":" gets "https" (secure) or "http" in front; the original URL follows unchanged |
| RequestBuilders.UrllibUrlSuffix | src/helpers/UrllibHelper.ts:25 | after the URL comes nothing without `withBump`, else the separator, "x=", timestamp and bump |
| RequestBuilders.UrllibBumpedUrlHasQuery | src/helpers/UrllibHelper.ts:25 | with the bump the requested URL always contains "?" |
| RequestBuilders.UrllibRequestFields | src/helpers/UrllibHelper.ts:25-33 | method as above and timeout·1000 unless the options override them; headers merged with the options' winning; data passed on |
| RequestBuilders.GeneralMethod | src/utils/general.ts:19 | POST exactly when `body !== null` |
| RequestBuilders.GeneralCreateRequest | src/utils/general.ts:14-27 | stamps the caller's headers, then builds the request from the stamped headers |
| RequestBuilders.GeneralUrlParts | src/utils/general.ts:18 | a null bump leaves the URL unchanged; otherwise URL, "&" iff it has "?" (else "?"), "x=", time, bump |
| RequestBuilders.GeneralUrlMatchesUrllib | src/utils/general.ts:18 | for URLs that need no scheme the two helpers build the same URL |
| UploaderData.HTTPUploaderData.constructor | src/helpers/HTTPUploaderData.ts:10-14 | data is null and `total == [0]` |
| UploaderData.HTTPUploaderData.PreAllocate | src/helpers/HTTPUploaderData.ts:19-25 | stores "content1=" and the first length - 9 characters of the alphabet repeated round(length/36) times; a negative count throws and changes nothing |
| UploaderData.HTTPUploaderData.Read | src/helpers/HTTPUploaderData.ts:45-49 | returns `slice(0, n)`, appends its length to `total`, keeps data; reading null data throws and changes nothing |
| UploaderData.TotalCountsChunks | src/helpers/HTTPUploaderData.ts:13 | `sum(total)` equals the total length of the chunks handed out |
| UploaderData.ReadPrefix | src/helpers/HTTPUploaderData.ts:46 | `read(n)` returns the first min(n, |data|) characters |
| UploaderData.PayloadShape | src/helpers/HTTPUploaderData.ts:20-24 | data starts with "content1=" and character 9 + i is alphabet[i mod 36] |
| UploaderData.RepeatedAt36 | src/helpers/HTTPUploaderData.ts:22 | character i of the repeated alphabet is alphabet[i mod 36] |
| UploaderData.PayloadLength | src/helpers/HTTPUploaderData.ts:21-24 | for length >= 9, |data| = 9 + min(length - 9, 36·round(length/36)) <= length |
| UploaderData.PayloadShortFor65536 | src/helpers/HTTPUploaderData.ts:21 | the 65536-byte upload body has 65529 characters |
| UploaderData.PayloadShortExactly | src/helpers/HTTPUploaderData.ts:21-24 | the body is shorter than its length exactly when length mod 36 is 10..17 |
| UploaderData.CorrectedPayloadLength | src/helpers/HTTPUploaderData.ts:21-24 | with a covering multiplier the body has exactly `length` characters in the same cyclic pattern |
| Downloader.HTTPDownloader.Run | src/helpers/HTTPDownloader.ts:16-30 | a failed request yields [0]; otherwise the loop yields the chunk lengths of the body |
| Downloader.ChunkLengthsSum | src/helpers/HTTPDownloader.ts:20-24 | the chunk lengths sum to the body length |
| Downloader.ChunkLengthsShape | src/helpers/HTTPDownloader.ts:20-24 | ceil(length/10240) chunks, all 10240 but the last, which holds the remainder; an empty body gives [] |
| LegacySpeedtest.ConfigDerivation | src/tests/Speedtest.ts:103-135 | for every ratio <= 7 a non-empty ladder: `uploadSizes[ratio-1..]` for ratio >= 1, counted from the end for ratio <= 0 (ratio 0 keeps only 7340032, ratio <= -6 keeps all); fixed download sizes, uploadMax the least multiple of the ladder length >= maxchunkcount, threads 2·threadcount and upload.threads, count threadsperurl |
| LegacySpeedtest.CeilDivBounds | src/tests/Speedtest.ts:112 | b·ceil(a/b) lies in [a, a + b) |
| LegacySpeedtest.ConfigWithoutUploadSizes | src/tests/Speedtest.ts:107-112 | a ratio past the list gives no upload sizes and no finite upload count |
| LegacySpeedtest.Replicate | src/tests/Speedtest.ts:207 | the inner loop gives `count` copies (none when count <= 0) |
| LegacySpeedtest.ExpandLength | src/tests/Speedtest.ts:206-209 | the nested loops give |xs|·count entries |
| LegacySpeedtest.ExpandBlock | src/tests/Speedtest.ts:206-209 | block i of the nested loops is `count` copies of xs[i] |
| LegacySpeedtest.ExpandAt | src/tests/Speedtest.ts:283-286 | entry i·count + j of the nested loops is xs[i] |
| LegacySpeedtest.ExpandMembers | src/tests/Speedtest.ts:283-286 | the nested loops only repeat elements of the ladder |
| LegacySpeedtest.DownloadTargets | src/tests/Speedtest.ts:208 | one URL per size |
| LegacySpeedtest.NumberedDownloads | src/tests/Speedtest.ts:213-222 | one request per URL, in order |
| LegacySpeedtest.NumberedDownloadAt | src/tests/Speedtest.ts:213-222 | request i fetches URL i with cache bump "i", no body and the chosen timeout |
| LegacySpeedtest.BuildDownloadUrls | src/tests/Speedtest.ts:206-209 | the loops push every size's URL `count` times, sizes in order |
| LegacySpeedtest.BuildUploadSizes | src/tests/Speedtest.ts:283-286 | the loops push every ladder size `count` times, in order |
| LegacySpeedtest.DownloadPlanShape | src/tests/Speedtest.ts:206-222 | 10·count requests; request i·count + j fetches size i with cache bump its index |
| LegacySpeedtest.DownloadPlanEmpty | src/tests/Speedtest.ts:207 | a non-positive threadsperurl plans no download |
| LegacySpeedtest.UploadSizeListLength | src/tests/Speedtest.ts:283-290 | for every ratio <= 7, slicing to uploadMax keeps the whole expanded list: exactly uploadMax upload requests |
| LegacySpeedtest.ExpandedSizesUploadable | src/tests/Speedtest.ts:290-295 | every planned size can be pre-allocated |
| LegacySpeedtest.UploadBodiesMatchContentLength | src/tests/Speedtest.ts:292-300 | each body read has the declared content-length, except the 65536 body |
| LegacySpeedtest.ProbeTimes | src/tests/Speedtest.ts:171-183 | one time per probe |
| LegacySpeedtest.ScoreAll | src/tests/Speedtest.ts:167-187 | every server is scored from its own probes |
| LegacySpeedtest.AnsweredProbesLatency | src/tests/Speedtest.ts:179-185 | three answered probes give latency (sum of elapsed ms)/6 |
| LegacySpeedtest.FailedProbesLatency | src/tests/Speedtest.ts:181-185 | three failed probes give 3·3600 s/6 = 1 800 000 ms |
| LegacySpeedtest.FailedProbeRanksLater | src/tests/Speedtest.ts:179-189 | a server answered within an hour in total ranks before a server with a failed probe |
| LegacySpeedtest.ProbeJitterDefined | src/tests/Speedtest.ts:186 | three probes always give a non-negative jitter |
| LegacySpeedtest.SpeedtestPlan.constructor | src/tests/Speedtest.ts:12-15 | no configuration, no servers, no fastest server |
| LegacySpeedtest.SpeedtestPlan.GetConfig | src/tests/Speedtest.ts:94-141 | `testConfig` becomes the derived configuration; nothing else changes |
| LegacySpeedtest.SpeedtestPlan.GetServersList | src/tests/Speedtest.ts:148-158 | `servers` becomes the fetched list; nothing else changes |
| LegacySpeedtest.FirstUnanswered | src/tests/Speedtest.ts:167-176 | the first server with a probe that threw: all servers before it had every probe complete |
| LegacySpeedtest.ScoreServers | src/tests/Speedtest.ts:167-187 | scores the servers in order until a probe throws; the servers before it scored, the rest untouched |
| LegacySpeedtest.SpeedtestPlan.GetBestServer | src/tests/Speedtest.ts:165-193 | with every probe completed: every server scored, the list sorted in place by latency, the fastest server its head; a probe that throws fails the call with the servers before it scored, the list unsorted and the fastest server unchanged |
| LegacySpeedtest.DirnameEnd | src/tests/Speedtest.ts:208 | the scan of `path.dirname` finds no separator or one at a position in [1, i] |
| LegacySpeedtest.DirnameOfFile | src/tests/Speedtest.ts:169 | the directory of `dir/name` (a name without '/', a dir not ending in '/') is `dir`, as for a server's `upload.php` URL |
| LegacySpeedtest.SpeedtestPlan.DownloadRequests | src/tests/Speedtest.ts:202-222 | the download request list of the configuration, in the directory of the fastest server's URL, with timeout `options.timeout` when `wait` is set and the download test length otherwise |
| LegacySpeedtest.SpeedtestPlan.UploadRequests | src/tests/Speedtest.ts:279-305 | the upload request list: the fastest server's URL, content-length, body read, index as bump, timeout `options.timeout` when `wait` is set and the upload test length otherwise |
| LegacySpeedtest.SpeedtestPlan.AfterDownload | src/tests/Speedtest.ts:255-261 | more than 100 000 bit/s sets the upload threads to 8; nothing else changes |
| LegacySpeedtest.FastDownloadThreshold | src/tests/Speedtest.ts:257-260 | for a positive time the test is 8000·bytes > 100 000·elapsed ms |
| LegacySpeedtest.UploadPlanSnoc | src/tests/Speedtest.ts:290-305 | the upload list of a longer size prefix extends by one request |
| OoklaServers.ServerListLimit | src/tests/ookla.ts:68 | `serversToFetch || 100`: the given limit unless it is missing or 0 |
| OoklaServers.SearchServersQuery | src/tests/ookla.ts:78-79 | the search query is the nearest-servers query with `search=<term>&` inserted after `engine=js&` |
| OoklaServers.ServerListFallback | dist/esm/tests/ookla.js:130 | a missing or 0 limit asks for 100 servers, while the ESM build sends it as it is |
| OoklaServers.LatencyProbing.constructor | src/tests/ookla.ts:206-216 | every server's counter reset to 0; one probe in progress per server; nothing settled |
| OoklaServers.LatencyProbing.OnLatency | src/tests/ookla.ts:217-225 | the server's latency is written; the current builds push it in completion order; the promise settles exactly when the last probe reports |
| OoklaServers.DistinctIndicesCover | src/tests/ookla.ts:215-224 | n distinct reports of n probes cover every server |
| OoklaServers.ResolvedCoversServers | src/tests/ookla.ts:219-223 | once settled, the list holds every prepared server with its latency |
| OoklaServers.GetBestServers | src/tests/ookla.ts:236-238 | sorts the caller's array in place by latency and returns its first four |
| OoklaServers.BestServersShape | src/tests/ookla.ts:237 | min(4, n) servers, ascending by latency, a sub-multiset of the input |
| OoklaServers.BestServersKeepFastest | src/tests/ookla.ts:237 | no dropped server is faster than a kept one |
| OoklaServers.SortedPrefixLeast | src/tests/ookla.ts:237 | in a sorted list every element of a prefix is at most every element outside it |
| OoklaServers.BestServerIsFastest | src/tests/ookla.ts:132 | the best server is a fastest measured server |
| OoklaPing.AbsInt | src/tests/ookla.ts:278 | `Math.abs`: non-negative, x or -x |
| OoklaPing.PingProbe.constructor | src/tests/ookla.ts:251-265 | after the untimed "PING ": no test number, no latency, no jitter, open |
| OoklaPing.PingProbe.OnMessage | src/tests/ookla.ts:267-293 | non-PONG messages change nothing; a PONG records now - last ping send time unless it is the first; it closes on the PONG after `requests` latencies; a target of -1 never closes |
| OoklaPing.PingProbe.OnPong | src/tests/ookla.ts:269-291 | record, then close when the test number reaches the target or send the next timestamped ping |
| OoklaPing.PingProbe.Close | src/tests/ookla.ts:295-304 | an outside close settles the probe with what was recorded |
| OoklaPing.PingProbe.AutoCloseAsWritten | src/tests/ookla.ts:264 | the timer's callback closes nothing: the probe stays open |
| OoklaPing.PingProbe.AutoClose | src/tests/ookla.ts:264 | the intended timer closes the probe and keeps what was recorded |
| OoklaPing.PingProbe.Result | src/tests/ookla.ts:295-303 | jitter null iff jitter is off; latency NaN iff nothing was recorded; with two latencies the jitter is a non-negative number |
| OoklaPing.PingOutcomeShape | dist/commonjs/tests/ookla.js:234-241 | the same facts for both close handlers (plain average or IQM of the latencies) |
| OoklaPing.JittersNonNegative | src/tests/ookla.ts:276-280 | every recorded jitter is non-negative |
| OoklaPing.CommonJsLatencyWithinRange | dist/commonjs/tests/ookla.js:236 | the CommonJS latency lies between the least and the largest recorded latency |
| OoklaPing.SilentServerAsWritten | src/tests/ookla.ts:264 | against a server that never answers, the probe as written never settles |
| OoklaPing.SilentServer | src/tests/ookla.ts:264 | with the intended timer the probe settles with a NaN latency |
| OoklaEngine.Progress | src/tests/ookla.ts:399 | the progress never exceeds 100 |
| OoklaEngine.ProgressBounds | src/tests/ookla.ts:398-399 | for elapsed >= 0 the progress is in [0, 100]; 100 exactly from 15 s; below 50 exactly before 7.5 s |
| OoklaEngine.ProgressMonotone | src/tests/ookla.ts:399 | progress never decreases with elapsed time |
| OoklaEngine.Ceil | src/tests/ookla.ts:406 | `Math.ceil`: the least integer at least x |
| OoklaEngine.ScalingTargetLeast | src/tests/ookla.ts:406 | the ramp target is the least connection count whose share of the scaling ratio (750 000 B/s for both tests) covers the bandwidth |
| OoklaEngine.BandwidthRate | src/tests/ookla.ts:389 | the sample times the period gives back the bytes; non-negative bytes give a non-negative sample |
| OoklaEngine.AfterOpensStep | src/tests/ookla.ts:408-418 | one more attempt after n attempts from `active` is n + 1 attempts |
| OoklaEngine.AfterOpensAdditional | src/tests/ookla.ts:407-408 | running max(0, target - active) attempts ends where the target says |
| OoklaEngine.AfterOpensMax | src/tests/ookla.ts:405-433 | after trying to open up to a target under the cap, active = max(active, min(target, cap)) |
| OoklaEngine.TickPhaseRules | dist/commonjs/tests/ookla.js:342-357 | finish iff 100 %; ESM never tops up and idles at 50-99 %; the CommonJS single download never ramps; the TypeScript source ramps iff below 50 % |
| OoklaEngine.Sampler.constructor | src/tests/ookla.ts:366-370 | start and last sample time now, nothing counted, no samples |
| OoklaEngine.Sampler.AddBytes | src/tests/ookla.ts:348 | `sampleBytes += n`; nothing else changes |
| OoklaEngine.Sampler.Take | src/tests/ookla.ts:386-399 | moves the sampled bytes into the total (their sum unchanged, sampleBytes 0), appends exactly one sample bytes/(elapsed/1000), returns the progress in [0, 100] |
| OoklaSpeed.TopTwoThirds | src/tests/ookla.ts:617 | floor(2n/3) is at most n |
| OoklaSpeed.WithoutTwoHighest | src/tests/ookla.ts:616 | `slice(2)` drops two samples (all of fewer) |
| OoklaSpeed.CalculateSpeedFromSamples | src/tests/ookla.ts:614-620 | sorts the caller's array descending in place and returns the mean of the top two thirds after the two largest |
| OoklaSpeed.SpeedDefinedIff | src/tests/ookla.ts:616-619 | the window has floor(2(n-2)/3) samples; the speed is a number exactly when n >= 4 (else 0/0) |
| OoklaSpeed.SpeedPermutationInvariant | src/tests/ookla.ts:615-619 | the speed depends only on the multiset of samples |
| OoklaSpeed.SortedWithTwoLargest | src/tests/ookla.ts:615 | two values at least as large as the rest sort first |
| OoklaSpeed.SpeedIgnoresTwoLargest | src/tests/ookla.ts:615-619 | changing the two largest samples (keeping them largest) leaves the speed unchanged |
| OoklaSpeed.SpeedWithinSamples | src/tests/ookla.ts:614-620 | with n >= 4 the speed lies between the (k+2)-th largest and the third largest sample |
| OoklaDownload.Bump | src/tests/ookla.ts:326-333 | a server's own counter changes; the list keeps its length |
| OoklaDownload.TotalActiveBump | src/tests/ookla.ts:326-333 | changing one server's counter by d changes the total by d |
| OoklaDownload.TotalActivePermutation | src/tests/ookla.ts:411-413 | reordering the servers (the in-place sort) keeps the total of their counters |
| OoklaDownload.PermutationNonNegative | src/tests/ookla.ts:411-413 | reordering keeps every counter non-negative |
| OoklaDownload.IdentitiesBump | src/tests/ookla.ts:326-341 | opening or closing a connection changes one counter and no server |
| OoklaDownload.IdentitiesPermutation | src/tests/ookla.ts:411-413 | reordering the servers reorders the same servers, counters aside |
| OoklaDownload.Pass | src/tests/ookla.ts:409-418 | one multi-server pass (sort by counter, open to the head unless 24 are open) opens one connection below the cap and none at it, and keeps the same servers |
| OoklaDownload.Passes | src/tests/ookla.ts:407-419 | k passes bring the total to max(total, min(total + k, 24)) and keep the same servers |
| OoklaDownload.PassGoesToLeastLoaded | src/tests/ookla.ts:410-418 | a pass gives its connection to a server no other server has fewer connections than: the head of the result is that server, its counter up by one below the cap |
| OoklaDownload.TotalActiveNonNegative | src/tests/ookla.ts:325-333 | non-negative counters have a non-negative total |
| OoklaDownload.DownloadTest.constructor | src/tests/ookla.ts:317-370 | no connection, servers as ranked, multi-server mode when asked for (always in the ESM build) |
| OoklaDownload.DownloadTest.OpenConnection | src/tests/ookla.ts:336-341 | refused at 24; otherwise the global and the server's counter go up by one |
| OoklaDownload.DownloadTest.ConnectionClosed | src/tests/ookla.ts:330-333 | the global and the server's counter go down by one |
| OoklaDownload.DownloadTest.OnChunk | src/tests/ookla.ts:348 | the chunk's length is added to the sampled bytes |
| OoklaDownload.DownloadTest.SelectNextConnectionServer | dist/commonjs/tests/ookla.js:298-305 | single mode: the best server, list untouched; multi mode: the list sorted in place by counter (a permutation), head a least-loaded server |
| OoklaDownload.DownloadTest.OpenNext | src/tests/ookla.ts:409-418 | one pass of the loop: at most one more connection under the cap, the same servers up to their counters; multi mode: the list becomes `Pass` of the old list (sorted in place, the head bumped); single mode: only the best server's counter moves, by the connections opened |
| OoklaDownload.DownloadTest.OpenUpTo | src/tests/ookla.ts:407-419 | active becomes max(active, min(target, 24)); the servers stay the same servers up to their counters (a multiset of hosts); multi mode: the list becomes `Passes` of the old list for max(0, target - active) passes; single mode: only the best server's counter moves, by the connections opened |
| OoklaDownload.DownloadTest.OpenConnections | src/tests/ookla.ts:408-419 | count passes: active becomes max(active, min(active + count, 24)); multi mode: `Passes` of the old list; single mode: only the best server's counter moves |
| OoklaDownload.DownloadTest.Tick | src/tests/ookla.ts:385-453 | the sampling facts of a tick; the build's phase rule; ramp to ceil(bw/750 000) or top up to 4 under the cap; finish exactly at 100 %; the same servers up to their counters; multi mode: the list becomes `Passes` of the old list for max(0, target - active) passes, the target being the ramp or top-up one; single mode: only the best server's counter moves |
| OoklaDownload.DownloadTest.ApplyPhase | src/tests/ookla.ts:405-440 | ramp to ceil(bw/750 000) or top up to 4 under the cap, finish, or nothing; the same servers up to their counters; multi mode: the list becomes `Passes` of the old list for max(0, target - active) passes; single mode: only the best server's counter moves |
| OoklaDownload.DownloadTest.Result | src/tests/ookla.ts:445-452 | bytes moved so far, the probe's latency and jitter, a speed iff four samples; servers the controller's current list (multi), [best] (single), absent (ESM) |
| OoklaDownload.OpenInitialConnections | src/tests/ookla.ts:373-379 | multi mode: one per server up to 24; single mode: four to the best server |
| OoklaUpload.UploadStatsListener.constructor | src/tests/ookla.ts:468 | previous counter 0, not ready |
| OoklaUpload.UploadStatsListener.OnMessage | src/tests/ookla.ts:479-494 | non-"{" ignored; a falsy counter signals readiness only; otherwise reports b - previous and stores b, so the deltas sum to the latest counter |
| OoklaUpload.UploadTest.constructor | src/tests/ookla.ts:533-541 | nothing open, listener not ready |
| OoklaUpload.UploadTest.OnStatsMessage | src/tests/ookla.ts:541-545 | deltas feed the sampled bytes; the first readiness opens four connections; no connection before readiness |
| OoklaUpload.UploadTest.OpenConnection | src/tests/ookla.ts:520-529 | refused at 6, otherwise one more; in the ESM build six successful uploads stall it |
| OoklaUpload.UploadTest.ConnectionFinished | dist/esm/tests/ookla.js:428 | the TypeScript and CommonJS builds decrement on every outcome, the ESM build only on failure |
| OoklaUpload.UploadTest.OpenUpTo | src/tests/ookla.ts:573-580 | active becomes max(active, min(target, 6)) |
| OoklaUpload.UploadTest.Tick | src/tests/ookla.ts:551-582 | the sampling facts of a tick; the build's phase rule; ramp or top up under the cap of 6; finish exactly at 100 % |
| OoklaUpload.UploadTest.Result | src/tests/ookla.ts:594-601 | bytes = last server counter minus unsampled bytes; probe latency and jitter; speed iff four samples; servers [best] (absent in ESM) |
| OoklaRun.ExplicitServerRun | dist/commonjs/tests/ookla.js:73-82 | an explicit server is the only candidate and never means a multi-server test |
| OoklaRun.RunResultShape | dist/commonjs/tests/ookla.js:84-130 | a result exists iff some server was measured; 1-4 servers, fastest first; best = the first and no measured server faster; download/upload results exist iff asked for |

## Left out

- Sockets, HTTP, fetch, urllib, timers and `AbortController` are I/O. Their effects are event methods, and the two `Date.now()` readings of a PONG become the parameters `now` and `sendTime`.
- The handshake messages `HI`, `GETIP`, `CAPABILITIES` and `UPLOAD_STATS` and the ping payload are sends with no effect on the state.
- A WebSocket error that rejects a probe or the listener is not modelled. Neither is a malformed statistics message, on which `JSON.parse` throws.
- `toFixed` rounding of results and averages is decimal formatting of doubles. Values are exact and unrounded.
- Unit conversion (`convertSpeedUnit`, `convertUnits`, miles to kilometres) delegates to libraries that are not part of this model.
- XML/JSON parsing, `Number(string)` coercion and the config's `client` record are foreign calls. Their results are inputs, and `OoklaRun` leaves out the `client` field.
- `Math.random` cache busters, `randomUUID` and the ESM upload stream (`createStream`) are randomness or stream plumbing.
- The worker-thread pool and busy-wait throttle of the legacy download and upload are concurrency.
- Object aliasing is not modelled. The `servers` and `bestServer` of a run are the same objects that the multi-server download re-sorts and whose counters it changes. The model reports the ranked list as ranked, and the download result as the controller's list.
- A probe that never reports leaves `prepareTestServers` unsettled. The model shows that the promise settles exactly when every probe has reported.
- OoklaServers.LatencyProbing.OnLatency: takes a real latency, so a probe that recorded nothing (NaN latency) is not representable. The source pushes such a server too, and its NaN comparator in `getBestServers` leaves it at a position the JavaScript engine decides, first included.
- The `average` of `src/utils/index.ts` used by the TypeScript probe is not part of this model. It is taken to be the `average` of `dist/commonjs/utils/tests.js`.
- LegacySpeedtest.Dirname: models the POSIX `path.dirname`; on Windows Node applies the win32 rules (drive letters and backslashes), which are not modelled.
- LegacySpeedtest.SpeedtestPlan.DownloadRequests: requires a fastest server. Without one the source's read of `this.fastestServer.url` throws as soon as a URL is built, and the test rethrows; that path is not modelled.
- LegacySpeedtest.SpeedtestPlan.UploadRequests: requires a fastest server, for the same reason: the first request built reads `this.fastestServer.url`.
- Text.Trim: covers the whitespace of ECMAScript up to the Unicode version whose category Zs is listed in `IsWhitespace`; a later Unicode version adding a space separator is not followed.
- OoklaEngine.Bandwidth: requires a positive elapsed time, because the source divides by it unguarded.
- OoklaEngine.Progress: uses the download test's duration and ratio, which equal the upload test's (15 s and 750 000).
- OoklaDownload.DownloadTest.ConnectionClosed: requires the server's counter to be positive. The source decrements once per opened request, so a counter never goes below 0 on a real run.
- OoklaUpload.UploadTest.Tick: covers the ticks after readiness only, because the interval starts then.

## Findings

| source | as written | input that shows it | evidently intended | confidence | as-written member | corrected member |
|---|---|---|---|---|---|---|
| src/helpers/HTTPUploaderData.ts:21 | the alphabet is repeated round(length / 36) times, so 36·round(length/36) characters can be fewer than length - 9 | length 65536 (an upload size at src/tests/Speedtest.ts:13): 1820 repetitions give 65520 characters, and the body has 65529 characters for a content-length of 65536 | enough repetitions to cover the length, giving a body of exactly `length` characters | high (not executed) | UploaderData.PayloadShortFor65536 | UploaderData.CorrectedPayloadLength |
| src/tests/ookla.ts:264 | `setTimeout(() => ws.close, …)` evaluates `ws.close` without calling it, so the timer closes nothing (same at :476 and in both builds) | a server that never answers PONG: the probe never closes and its promise never settles | the timer closes the socket, which settles the result | high (not executed) | OoklaPing.SilentServerAsWritten | OoklaPing.SilentServer |
