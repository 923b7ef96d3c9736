# OSMonitor background service: a verified model

OSMonitor's background service polls a privileged helper process for system
and per-process statistics. From every answer it builds the figures its
notification shows:

- the CPU total;
- a three-slot table of the top CPU consumers, with their display labels;
- free and total memory.

A battery receiver keeps the battery level and temperature up to date.
Screen-on and screen-off broadcasts start and stop the polling cycle.

This project models that service and four string and integer helpers of
`CommonUtil`, and proves properties about them.

## Modules

- `Monitor` (`monitor.dfy`): the class `OSMonitorService`.
  - Its fields are the service's own fields. `topUsage` and `topProcess` are arrays of length 3. The name cache is a `map` field.
  - Its methods follow the source step by step:
    - `OnRecvData`, the record loop `ProcessBatch` and the record body `ProcessRecord`;
    - the payload loop `ProcessSamples` and its body `InsertSample`;
    - the `check` scan `FindSlot`, and `PlaceSample`, which runs the `push` loop `ShiftDown`, the cache fill `FillCache` and the slot writes;
    - the battery receiver and the wake/sleep life cycle.
  - `Valid()` ties the two registration flags to ghost counts of the receivers the platform holds.
- `Aggregation` (`aggregation.dfy`): the specification functions of one cycle, plus lemmas about them.
  - `StepSample`, `StepSamples`, `StepRecord` and `StepBatch` compute the cycle; `Reset` is the clearing before it.
  - The lemmas cover totals, the top three, memory, the cache, failures and carry-over.
  - `Shows(s, top)` ties the slots to samples: slot `j` holds `top[j]`'s usage and, when it is positive, the label cached under `top[j]`'s name.
- `Ranking` (`ranking.dfy`): the three-slot insertion and its reference meaning, generic in the entries and ranked by a key. The reference is a sort of the positive entries, largest first, cut to three entries; it is proved stable, so entries of equal key keep their arrival order. The usage array is the instance ranked by the usages themselves (`Id`). The samples behind the slots are the instance ranked by their usage.
- `Ipc` (`ipc.dfy`): the IPC service's pending-request queue, as the service uses it.
- `Battery` (`battery.dfy`): the battery update rule in Java `int` arithmetic.
- `CommonUtil` (`common_util.dfy`): `convertToInt`, `eraseNonIntegarString`, `eraseEmptyString` and `convertToRGB`.
- `JavaLang` (`java_lang.dfy`): the Java library behaviour these need:
  - 32-bit wrap-around and truncating division;
  - `Integer.parseInt` and `Integer.toString`;
  - `Integer.toHexString`;
  - `String.trim`, `toLowerCase` and `contains`.
- `Sequences` and `Wrappers`: an order-preserving `Filter` with its lemmas, and `Option`.

## Behaviour worth knowing

Four consequences of the code that are easy to miss:

- **Battery level.** The level is `(rawlevel * 100) / scale`, computed in Java `int` arithmetic. The division truncates; it does not round. The product wraps at 32 bits.
- **Decoding failures.** The `try` block covers a whole record. A payload that fails to decode therefore drops every later payload of the same record, not only itself. Later records are still processed.
- **Occupied slots.** A slot is taken only by a usage strictly greater than the slot's current usage, and every slot starts a cycle at 0. So the number of occupied slots is the number of positive samples, at most 3. It is not the number of all samples, at most 3: samples with usage 0 never enter the table.
- **`eraseNonIntegarString` drops `"0"`.** The test is whether `convertToInt` gives a non-zero value, so the string `"0"` counts as malformed.

## Model

| member | source | states |
|---|---|---|
| Monitor.OSMonitorService.constructor | OSMonitor/src/com/eolwral/osmonitor/OSMonitorService.java:32-58 | The IPC service, own uid and label lookup are the ones supplied. The interval starts at 2; both flags are false; the totals, memory, battery level and temperature are 0; the table is (0, "") three times; the cache is empty. |
| Monitor.OSMonitorService.OnRecvData | OSMonitor/src/com/eolwral/osmonitor/OSMonitorService.java:236-302 | No message: the state is unchanged. A message: the state is one cycle from the cleared table. The slots then hold the three largest positive usages, largest first, zero-padded; they are ordered and non-negative; each occupied slot carries the label cached under the name of the sample it ranks, ties kept in arrival order; the CPU total is the sum of every decoded usage. Either way, exactly one request (PROCESS, OS) with the current interval is appended for this listener. |
| Monitor.OSMonitorService.ClearTable | OSMonitor/src/com/eolwral/osmonitor/OSMonitorService.java:247-251 | All three slots become (0, ""). |
| Monitor.OSMonitorService.ProcessBatch | OSMonitor/src/com/eolwral/osmonitor/OSMonitorService.java:253-295 | Records are processed in order; the new state is `StepBatch` of the old one. |
| Monitor.OSMonitorService.ProcessRecord | OSMonitor/src/com/eolwral/osmonitor/OSMonitorService.java:254-294 | An OS record whose first payload decodes sets the memory figures. A PROCESS record feeds its samples up to the first decoding failure. Any other record, and an OS record that fails, leaves the state unchanged. |
| Monitor.OSMonitorService.ProcessSamples | OSMonitor/src/com/eolwral/osmonitor/OSMonitorService.java:266-290 | The payloads are inserted in order until the first one that fails to decode. |
| Monitor.OSMonitorService.FeedSample | OSMonitor/src/com/eolwral/osmonitor/OSMonitorService.java:266-289 | One more turn of the payload loop: the state after the samples fed so far becomes the state after those samples and one more, and the tables keep three slots. |
| Monitor.OSMonitorService.InsertSample | OSMonitor/src/com/eolwral/osmonitor/OSMonitorService.java:268-288 | The new state is `StepSample` of the old one: the usage is added to the total, and the sample is placed at the first slot strictly below it with the shift below. |
| Monitor.OSMonitorService.PlaceSample | OSMonitor/src/com/eolwral/osmonitor/OSMonitorService.java:272-286 | Slot `k` takes the sample after the shift, labelled from the filled cache: the usages and labels are displaced at `k`, and the cache is `CacheInfo` of the old one. |
| Monitor.OSMonitorService.FindSlot | OSMonitor/src/com/eolwral/osmonitor/OSMonitorService.java:269-270 | Returns the first slot whose usage is strictly below the sample, or 3. Every earlier slot is at least the sample. |
| Monitor.OSMonitorService.ShiftDown | OSMonitor/src/com/eolwral/osmonitor/OSMonitorService.java:272-275 | Slots before `k` and slot `k` keep their values. Each later slot takes the value of the slot above it. The old last slot is dropped. |
| Monitor.OSMonitorService.FillCache | OSMonitor/src/com/eolwral/osmonitor/OSMonitorService.java:278-283 | The cache becomes `CacheInfo` of the old cache: it changes only on a miss, and the helper process is seeded with the own uid. |
| Monitor.OSMonitorService.OnBatteryChanged | OSMonitor/src/com/eolwral/osmonitor/OSMonitorService.java:222-232 | The temperature is the extra, or -1 when absent. The level follows `BatteryLevel`, with -1 for a missing level or scale. |
| Monitor.OSMonitorService.StartBatteryMonitor | OSMonitor/src/com/eolwral/osmonitor/OSMonitorService.java:201-208 | Afterwards the flag is set and the receiver is registered exactly once, whether or not it already was. |
| Monitor.OSMonitorService.StopBatteryMonitor | OSMonitor/src/com/eolwral/osmonitor/OSMonitorService.java:210-216 | Afterwards the flag is clear and no battery receiver is registered, whether or not one was. |
| Monitor.OSMonitorService.WakeUp | OSMonitor/src/com/eolwral/osmonitor/OSMonitorService.java:187-193 | The interval is re-read. Exactly one immediate (PROCESS, OS) request is pending for this listener. Other listeners' requests are untouched. The battery monitor is on. |
| Monitor.OSMonitorService.GoSleep | OSMonitor/src/com/eolwral/osmonitor/OSMonitorService.java:195-198 | No request is pending for this listener and the battery monitor is off. |
| Monitor.OSMonitorService.InitService | OSMonitor/src/com/eolwral/osmonitor/OSMonitorService.java:163-172 | The screen receiver is registered (two filters, once) and the service is awake: the queue is the old one without this listener's requests, plus one immediate request; other listeners' requests are untouched. |
| Monitor.OSMonitorService.EndService | OSMonitor/src/com/eolwral/osmonitor/OSMonitorService.java:174-183 | The screen receiver is unregistered, no request is pending for this listener, and the battery monitor is off. |
| Monitor.OSMonitorService.OnScreenEvent | OSMonitor/src/com/eolwral/osmonitor/OSMonitorService.java:142-153 | Screen off: as after `GoSleep`, and the update interval is kept. Screen on: as after `WakeUp`. Any other broadcast changes nothing. |
| Aggregation.StepSample | OSMonitor/src/com/eolwral/osmonitor/OSMonitorService.java:266-287 | One decoded sample adds its usage to the CPU total, keeps three slots, and leaves the memory figures alone. |
| Aggregation.StepSamples | OSMonitor/src/com/eolwral/osmonitor/OSMonitorService.java:266-290 | The samples of a record keep three slots and leave the memory figures alone. |
| Aggregation.StepRecord | OSMonitor/src/com/eolwral/osmonitor/OSMonitorService.java:254-294 | A record that is not PROCESS leaves the total, the slots and the cache alone. A record that is not OS leaves the memory figures alone. |
| Aggregation.StepBatch | OSMonitor/src/com/eolwral/osmonitor/OSMonitorService.java:253-295 | The records of a message, in order, keep three slots. |
| Aggregation.Reset | OSMonitor/src/com/eolwral/osmonitor/OSMonitorService.java:245-251 | The total is 0 and every slot is (0, ""); memory figures and cache are kept. |
| Aggregation.SeedUid | OSMonitor/src/com/eolwral/osmonitor/OSMonitorService.java:279-282 | The seed is either the service's own uid or the reported one; which is which is fixed by the two seeding lemmas. |
| Aggregation.CycleTopIsThreeLargest | OSMonitor/src/com/eolwral/osmonitor/OSMonitorService.java:245-289 | After a cycle from any state, the slots hold the three largest positive usages of the batch, largest first, zero-padded. The CPU total is their full sum. |
| Aggregation.CycleTopIsOrdered | OSMonitor/src/com/eolwral/osmonitor/OSMonitorService.java:269-289 | After a cycle the slots are ordered largest first and non-negative. |
| Aggregation.StepBatchTotals | OSMonitor/src/com/eolwral/osmonitor/OSMonitorService.java:266-268 | The CPU total grows by the sum of the usage of every decoded sample, whether or not it entered the table. The table is that of offering those usages in order. |
| Aggregation.StepSamplesTotals | OSMonitor/src/com/eolwral/osmonitor/OSMonitorService.java:266-289 | For the samples of one record: the total grows by their sum, the table is their ranking, and memory is unchanged. |
| Aggregation.SumConcat | OSMonitor/src/com/eolwral/osmonitor/OSMonitorService.java:268 | The sum of a concatenation is the sum of the parts. |
| Aggregation.CycleMemoryIsLastOs | OSMonitor/src/com/eolwral/osmonitor/OSMonitorService.java:257-260 | Memory is taken from the last OS record that decodes (free + buffered + cached, and total). With no such record it is unchanged. |
| Aggregation.ParsedIsPrefix | OSMonitor/src/com/eolwral/osmonitor/OSMonitorService.java:266-267 | The samples a process record feeds are exactly the payloads before the first one that fails to decode, each decoded: there are `FailAt` of them, and sample `i` is payload `i`. |
| Aggregation.FailureDropsRestOfRecord | OSMonitor/src/com/eolwral/osmonitor/OSMonitorService.java:254-294 | A failure at payload `k` of a process record gives the same result as the record cut at `k`. |
| Aggregation.StepBatchConcat | OSMonitor/src/com/eolwral/osmonitor/OSMonitorService.java:253-295 | A batch is processed record after record, so a record cut short does not stop the records after it. |
| Aggregation.StepSampleShows | OSMonitor/src/com/eolwral/osmonitor/OSMonitorService.java:269-287 | One sample moves the samples behind the slots exactly as the insertion moves the usages. The new slot gets the label cached under the sample's name. No cached label is replaced. |
| Aggregation.StepSamplesShows | OSMonitor/src/com/eolwral/osmonitor/OSMonitorService.java:266-290 | The same, over the samples of a record: the slots show the ranking of those samples. |
| Aggregation.StepBatchShows | OSMonitor/src/com/eolwral/osmonitor/OSMonitorService.java:253-295 | The same, over a batch: the slots show the ranking of every sample of the batch. |
| Aggregation.CycleSlotsAreTopThree | OSMonitor/src/com/eolwral/osmonitor/OSMonitorService.java:245-295 | After any cycle the cache has only grown. Slot `j` shows the `j`-th sample of a stable sort, largest usage first, of the batch's positive samples: it holds that sample's usage and the label cached under its name. Slots left over are 0 and "". |
| Aggregation.EqualUsagesKeepArrivalOrder | OSMonitor/src/com/eolwral/osmonitor/OSMonitorService.java:270 | When all samples report the same positive usage, the slots show the first three samples in arrival order. |
| Aggregation.HelperSeededWithOwnUid | OSMonitor/src/com/eolwral/osmonitor/OSMonitorService.java:279-280 | A sample whose lower-cased name contains "osmcore" at any position is resolved with the service's own uid. |
| Aggregation.OthersSeededWithReportedUid | OSMonitor/src/com/eolwral/osmonitor/OSMonitorService.java:281-282 | A sample whose lower-cased name contains "osmcore" at no position is resolved with the uid it reports. |
| Aggregation.HelperLibrarySeeded | OSMonitor/src/com/eolwral/osmonitor/OSMonitorService.java:279-280 | "libOSMCore.so", in mixed case, is resolved with the service's own uid. |
| Aggregation.StepSampleRankingOnly | OSMonitor/src/com/eolwral/osmonitor/OSMonitorService.java:268-287 | Memory figures do not influence how one sample is ranked. |
| Aggregation.StepSamplesRankingOnly | OSMonitor/src/com/eolwral/osmonitor/OSMonitorService.java:266-290 | Memory figures do not influence how a record's samples are ranked. |
| Aggregation.StepBatchRankingOnly | OSMonitor/src/com/eolwral/osmonitor/OSMonitorService.java:253-295 | Memory figures do not influence the ranking over a batch. |
| Aggregation.CycleForgetsPreviousRanking | OSMonitor/src/com/eolwral/osmonitor/OSMonitorService.java:245-251 | Two cycles on the same batch, from states with the same cache, give the same total, slots and cache, whatever came before. |
| Aggregation.ConsecutiveCyclesAgree | OSMonitor/src/com/eolwral/osmonitor/OSMonitorService.java:245-295 | A second cycle on the same batch, run right after the first, gives the same CPU total, memory figures, usages and labels. Its cache only extends the first one's. |
| Aggregation.TieNeverDisplaces | OSMonitor/src/com/eolwral/osmonitor/OSMonitorService.java:270 | A sample never displaces a slot whose usage is at least its own, nor any slot above it. So among exact ties the first one seen keeps its slot. |
| Aggregation.SmallSampleDropped | OSMonitor/src/com/eolwral/osmonitor/OSMonitorService.java:268-270 | A sample no larger than every slot only adds to the CPU total. |
| Aggregation.MemoryExample | OSMonitor/src/com/eolwral/osmonitor/OSMonitorService.java:257-260 | Total 1000 with free 200, buffered 50 and cached 50 gives 300 free out of 1000. |
| Aggregation.CacheInfo | OSMonitor/src/com/eolwral/osmonitor/OSMonitorService.java:278-283 | The cache gains exactly the sample's name. Existing entries are never replaced. On a miss the resolver is called with the seeded uid. |
| Ranking.FirstLess | OSMonitor/src/com/eolwral/osmonitor/OSMonitorService.java:269-270 | Returns the first index whose value is strictly below `u`: every earlier value is at least `u`. |
| Ranking.Displace | OSMonitor/src/com/eolwral/osmonitor/OSMonitorService.java:272-286 | Slots before `k` are kept, slot `k` is `x`, and each later slot holds the old value one above. |
| Ranking.InsertTop | OSMonitor/src/com/eolwral/osmonitor/OSMonitorService.java:269-289 | One insertion keeps the table's length. |
| Ranking.InsertTopMembers | OSMonitor/src/com/eolwral/osmonitor/OSMonitorService.java:269-289 | The table is unchanged or the entry entered it; every entry afterwards was there before or is the new one. |
| Ranking.RankAll | OSMonitor/src/com/eolwral/osmonitor/OSMonitorService.java:266-290 | Offering a sequence of entries keeps the table's length. |
| Ranking.RankAllMembers | OSMonitor/src/com/eolwral/osmonitor/OSMonitorService.java:266-290 | Every entry of the ranked table was in it before or was offered. |
| Ranking.InsertTopKeepsOrder | OSMonitor/src/com/eolwral/osmonitor/OSMonitorService.java:269-289 | One insertion keeps the table sorted largest first and non-negative. |
| Ranking.InsertTopTieKeeps | OSMonitor/src/com/eolwral/osmonitor/OSMonitorService.java:270 | A sample no larger than every slot (an exact tie included) leaves the table unchanged. |
| Ranking.InsertTopReplacesOne | OSMonitor/src/com/eolwral/osmonitor/OSMonitorService.java:269-287 | The table is unchanged, or exactly the old last usage leaves it and the sample enters it. |
| Ranking.RankAllKeepsOrder | OSMonitor/src/com/eolwral/osmonitor/OSMonitorService.java:266-290 | Any sequence of insertions keeps the table sorted and non-negative. |
| Ranking.RankAllConcat | OSMonitor/src/com/eolwral/osmonitor/OSMonitorService.java:253-290 | Ranking a concatenation is ranking one part after the other. |
| Ranking.InsertTopOfTop3 | OSMonitor/src/com/eolwral/osmonitor/OSMonitorService.java:269-289 | The bounded three-slot insertion agrees with inserting into the full sorted list and cutting it to three. |
| Ranking.RankAllIsTopThree | OSMonitor/src/com/eolwral/osmonitor/OSMonitorService.java:245-290 | From the cleared table, the slots end up as the three largest positive usages, largest first, zero-padded. |
| Ranking.SortDescSorts | OSMonitor/src/com/eolwral/osmonitor/OSMonitorService.java:269-289 | The reference sort returns a permutation of its input, ordered largest first. |
| Ranking.SortDescEqualKeys | OSMonitor/src/com/eolwral/osmonitor/OSMonitorService.java:270 | When every entry has the same key, the sort returns its input. |
| Ranking.SortDescStable | OSMonitor/src/com/eolwral/osmonitor/OSMonitorService.java:270 | The sort is stable: for every key, the entries of that key come out in the order they went in. |
| Ranking.InsertDescFilter | OSMonitor/src/com/eolwral/osmonitor/OSMonitorService.java:270 | Inserting into a sorted list puts the entry after every entry of its own key. |
| Ranking.FirstLessOfKeys | OSMonitor/src/com/eolwral/osmonitor/OSMonitorService.java:269-270 | The scan stops at the same slot on a table of samples as on their usages. |
| Ranking.InsertDescSorted | OSMonitor/src/com/eolwral/osmonitor/OSMonitorService.java:269-289 | Inserting into a sorted list keeps it sorted and adds exactly the element. |
| Ipc.IpcService.constructor | OSMonitor/src/com/eolwral/osmonitor/OSMonitorService.java:72-73 | The service starts with no pending request. |
| Ipc.IpcService.AddRequest | OSMonitor/src/com/eolwral/osmonitor/OSMonitorService.java:191 | Appends one request. |
| Ipc.IpcService.RemoveRequest | OSMonitor/src/com/eolwral/osmonitor/OSMonitorService.java:190 | Drops every request of the listener and keeps the others in order. |
| Ipc.RemoveClearsListener | OSMonitor/src/com/eolwral/osmonitor/OSMonitorService.java:196 | After removal nothing is pending for that listener. |
| Ipc.RemoveKeepsOthers | OSMonitor/src/com/eolwral/osmonitor/OSMonitorService.java:190 | Removal leaves every other listener's pending requests as they were. |
| Ipc.AddAppendsPending | OSMonitor/src/com/eolwral/osmonitor/OSMonitorService.java:300-301 | The added request is the last one pending for its listener, after those already there. |
| Ipc.ReplaceLeavesOne | OSMonitor/src/com/eolwral/osmonitor/OSMonitorService.java:190-191 | Removing, then adding, leaves exactly the new request pending for the listener. |
| Battery.IntExtra | OSMonitor/src/com/eolwral/osmonitor/OSMonitorService.java:224-227 | The extra when present, -1 when absent. |
| Battery.BatteryLevel | OSMonitor/src/com/eolwral/osmonitor/OSMonitorService.java:229-231 | Unless `rawlevel >= 0 && scale > 0`, the level keeps its previous value. |
| Battery.BatteryLevelPercent | OSMonitor/src/com/eolwral/osmonitor/OSMonitorService.java:230 | Without overflow the level is the percentage rounded down (floor bounds). A raw level within the scale gives 0 to 100. |
| Battery.HalfCharged | OSMonitor/src/com/eolwral/osmonitor/OSMonitorService.java:229-230 | 50 on a scale of 100 is 50. |
| CommonUtil.ConvertToInt | OSMonitor/src/com/eolwral/osmonitor/util/CommonUtil.java:255-260 | The parsed value when `Integer.parseInt` accepts the string, 0 when it throws. |
| CommonUtil.ConvertToIntOfString | OSMonitor/src/com/eolwral/osmonitor/util/CommonUtil.java:255-260 | Every `int` written in decimal converts back to itself. |
| CommonUtil.ConvertToIntRejects | OSMonitor/src/com/eolwral/osmonitor/util/CommonUtil.java:257-259 | The empty string, a lone sign, a leading or trailing blank and a stray letter all give 0. |
| CommonUtil.ConvertToIntRejectsAboveMax | OSMonitor/src/com/eolwral/osmonitor/util/CommonUtil.java:257-259 | "2147483648" is out of range and gives 0. |
| CommonUtil.ConvertToIntRejectsBelowMin | OSMonitor/src/com/eolwral/osmonitor/util/CommonUtil.java:257-259 | "-2147483649" is out of range and gives 0. |
| CommonUtil.ConvertToIntAccepts | OSMonitor/src/com/eolwral/osmonitor/util/CommonUtil.java:257 | Either sign, leading zeros and zero itself are accepted. |
| CommonUtil.EraseNonIntegarString | OSMonitor/src/com/eolwral/osmonitor/util/CommonUtil.java:267-274 | The result is the in-order subsequence of the strings that convert to a non-zero `int`. A string is in it exactly when it is in the input and converts to non-zero. It is no longer than the input. |
| CommonUtil.EraseNonIntegarIdempotent | OSMonitor/src/com/eolwral/osmonitor/util/CommonUtil.java:267-274 | Erasing twice equals erasing once. |
| CommonUtil.EraseEmptyString | OSMonitor/src/com/eolwral/osmonitor/util/CommonUtil.java:281-288 | The result is the in-order subsequence of the untrimmed strings whose trimmed form is non-empty. A string is kept exactly when it holds a character above U+0020. |
| CommonUtil.EraseEmptyIdempotent | OSMonitor/src/com/eolwral/osmonitor/util/CommonUtil.java:281-288 | Erasing twice equals erasing once. |
| CommonUtil.Red | OSMonitor/src/com/eolwral/osmonitor/util/CommonUtil.java:314 | The red component is below 256. |
| CommonUtil.Green | OSMonitor/src/com/eolwral/osmonitor/util/CommonUtil.java:315 | The green component is below 256. |
| CommonUtil.Blue | OSMonitor/src/com/eolwral/osmonitor/util/CommonUtil.java:316 | The blue component is below 256. |
| CommonUtil.HexByte | OSMonitor/src/com/eolwral/osmonitor/util/CommonUtil.java:314-328 | A component written as hex and padded to two characters has exactly two characters. |
| CommonUtil.ConvertToRGB | OSMonitor/src/com/eolwral/osmonitor/util/CommonUtil.java:313-331 | The result has seven characters and starts with '#'. |
| CommonUtil.ConvertToRGBRoundTrip | OSMonitor/src/com/eolwral/osmonitor/util/CommonUtil.java:313-330 | The six characters after '#' are lower-case hex digits. The pairs read back as the red, green and blue components. |
| CommonUtil.HexByteRoundTrip | OSMonitor/src/com/eolwral/osmonitor/util/CommonUtil.java:314-328 | A component written zero-padded to two lower-case hex digits reads back as itself. |
| CommonUtil.ComponentsAreRgb | OSMonitor/src/com/eolwral/osmonitor/util/CommonUtil.java:314-316 | Red, green and blue are bits 16-23, 8-15 and 0-7 of the colour. |
| CommonUtil.RgbFromComponents | OSMonitor/src/com/eolwral/osmonitor/util/CommonUtil.java:314-316 | The low 24 bits are recomposed from the three components. |
| CommonUtil.SameStringSameComponents | OSMonitor/src/com/eolwral/osmonitor/util/CommonUtil.java:313-330 | Equal strings carry equal components. |
| CommonUtil.ConvertToRGBIgnoresOnlyAlpha | OSMonitor/src/com/eolwral/osmonitor/util/CommonUtil.java:306-331 | Two colours give the same string exactly when their low 24 bits agree. So only the alpha byte is ignored. |
| JavaLang.ParseInt | OSMonitor/src/com/eolwral/osmonitor/util/CommonUtil.java:257 | An accepted string is non-empty and its value is within the `int` range. |
| JavaLang.IntToString | OSMonitor/src/com/eolwral/osmonitor/util/CommonUtil.java:257 | A non-negative number is written as decimal digits; a negative one as `-` followed by digits. |
| JavaLang.JavaDiv | OSMonitor/src/com/eolwral/osmonitor/OSMonitorService.java:230 | Division truncates toward zero: for a non-negative dividend the quotient is the floor, for a negative one the ceiling. |
| JavaLang.Trim | OSMonitor/src/com/eolwral/osmonitor/util/CommonUtil.java:284 | The trimmed string is no longer than the input, and when non-empty starts and ends with a character above U+0020. |
| JavaLang.Lower | OSMonitor/src/com/eolwral/osmonitor/OSMonitorService.java:279 | Lower-casing keeps the length. |
| JavaLang.LowerIsLowerCase | OSMonitor/src/com/eolwral/osmonitor/OSMonitorService.java:279 | No upper-case ASCII letter is left, and every other character is unchanged. |
| JavaLang.Contains | OSMonitor/src/com/eolwral/osmonitor/OSMonitorService.java:279 | A contained string is no longer than the container, and the empty string is contained in every string. |
| JavaLang.ParseIntToString | OSMonitor/src/com/eolwral/osmonitor/util/CommonUtil.java:257 | `Integer.parseInt` reads back every `int` written by `Integer.toString`. |
| JavaLang.ToHexString | OSMonitor/src/com/eolwral/osmonitor/util/CommonUtil.java:314-316 | At least one lower-case hex digit. A single digit exactly below 16. At most two below 256. |
| JavaLang.TrimEmptyIffBlank | OSMonitor/src/com/eolwral/osmonitor/util/CommonUtil.java:284 | `trim()` is empty exactly when every character is at most U+0020. |
| JavaLang.ContainsAt | OSMonitor/src/com/eolwral/osmonitor/OSMonitorService.java:279 | A string contains every substring found at some position. |
| JavaLang.ContainsOccurs | OSMonitor/src/com/eolwral/osmonitor/OSMonitorService.java:279 | A string contains a substring only where it occurs at some position. |
| JavaLang.Wrap32 | OSMonitor/src/com/eolwral/osmonitor/OSMonitorService.java:230 | The `int` result agrees with the exact value modulo 2^32, and equals it when it is in range. |
| Sequences.FilterMembership | OSMonitor/src/com/eolwral/osmonitor/util/CommonUtil.java:269-272 | An element is kept exactly when it is in the input and passes the test. |
| Sequences.FilterEverything | OSMonitor/src/com/eolwral/osmonitor/util/CommonUtil.java:269-272 | When every element passes, filtering returns the input. |
| Sequences.FilterFilter | OSMonitor/src/com/eolwral/osmonitor/util/CommonUtil.java:267-288 | Filtering by a stronger test after a weaker one is filtering by the stronger one. |

## Left out

- Notification building and rendering (`initializeNotification`, `refreshNotification`, `endNotification`) is display code. The call to `refreshNotification` in `onRecvData` is omitted.
- `onCreate`, `onDestroy`, `onBind` and `refreshSettings` are Android life-cycle plumbing. `settings.getInterval()` is a parameter of `WakeUp` and `InitService`.
- Broadcast registration is kept only as its effect on the flags and on ghost counts of registered receivers. The screen receiver is modelled as `OnScreenEvent`.
- The IPC transport and protobuf decoding are replaced by pre-decoded records.
  - Each payload blob is described by what the two decoders make of it (`None` where `parseFrom` throws).
  - `IpcService` is not part of this model. `removeRequest` is taken to drop every request of the listener, and `getInstance` to hand out a service with an empty queue.
  - Delivery by the IPC service is not modelled: a request that has been answered is not taken off the queue. So the queue grows by one per `OnRecvData`, and the model proves no bound on how many requests are pending for a listener between `WakeUp` and `GoSleep`.
- `ipcService.disconnect()` at the end of `endService` is not modelled. Its effect is unknown, because `IpcService` is not part of this model; if it drops pending requests, the queue after `EndService` differs from the one modelled.
- `ProcessUtil` is not part of this model. The model assumes that the instance `ProcessUtil.getInstance` hands out starts with an empty cache.
  - Its cache is a `map` field, and its label lookup is a function of (uid, owner, name) supplied at construction.
  - `getPackageName` is taken to return the cached label.
  - `android.os.Process.myUid()` is a constant given at construction.
- `OnRecvData`: usages are unbounded integers. The source's `float` fields and their rounding in the sum are not modelled. The comparisons and the ranking are the same for every value that is not NaN.
- `OnRecvData`: memory figures are unbounded integers. `long` overflow of the sum free + buffered + cached is not modelled.
- `InsertSample`: `toLowerCase(Locale.getDefault())` is modelled as ASCII lower-casing. Locale-specific case mappings are not modelled.
- `ConvertToInt`: `Integer.parseInt` is modelled as in Java SE 7 and later: ASCII decimal digits with an optional leading `+` or `-`. Older Android runtimes rejected a leading `+`; the model accepts it. The non-ASCII Unicode digits Java also accepts are not modelled. A `null` string is not modelled.
- `constructor`: `topProcess` starts as three `null` strings in the source. It is modelled as three empty strings, which is also what every cycle writes.
- Null arrays and null elements passed to `eraseNonIntegarString` and `eraseEmptyString` are not modelled; the source throws on them.
- The battery receiver and the IPC callback run on different threads. They are modelled as separate sequential methods on the same object.
- `convertToSize` and `convertToUsage` use floating point and formatted output. The shell, file and process helpers and the platform probes of `CommonUtil` do I/O or read system properties. None of these are modelled.
