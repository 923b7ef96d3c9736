/** What one `onRecvData` cycle computes, as functions of the batch: memory
    figures from OS records, the CPU total and the three-slot ranking from
    process records, and the name cache the ranking fills. */
module Aggregation {
  import opened Wrappers
  import opened JavaLang
  import opened Sequences
  import opened Ipc
  import opened Ranking

  datatype OsInfo = OsInfo(totalMemory: int, freeMemory: int, bufferedMemory: int, cachedMemory: int)

  datatype ProcessInfo = ProcessInfo(name: string, uid: int, owner: string, cpuUsage: int)

  /** One opaque payload blob, described by what `osInfo.parseFrom` and
      `processInfo.parseFrom` make of it (`None` where they throw). */
  datatype Payload = Payload(asOs: Option<OsInfo>, asProcess: Option<ProcessInfo>)

  /** One `ipcData` entry of a message. */
  datatype Record = Record(action: Action, payloads: seq<Payload>)

  /** The service's own uid and the label resolver behind the name cache. */
  datatype Env = Env(myUid: int, resolve: (int, string, string) -> string)

  /** The fields of the service one cycle writes. */
  datatype Snapshot = Snapshot(
    cpuUsage: int,
    topUsage: seq<int>,
    topProcess: seq<string>,
    memoryFree: int,
    memoryTotal: int,
    nameCache: map<string, string>)

  predicate WellFormed(s: Snapshot) {
    |s.topUsage| == 3 && |s.topProcess| == 3
  }

  /** The marker of the monitor's own helper process. */
  const HelperMarker: string := "osmcore"

  /** The uid the name cache is seeded with: the service's own uid for the
      helper process (whatever case its name is in), the reported uid otherwise. */
  function SeedUid(p: ProcessInfo, myUid: int): (uid: int)
    ensures uid == myUid || uid == p.uid
  {
    if Contains(Lower(p.name), HelperMarker) then myUid else p.uid
  }

  /** The name cache after a sample has been looked up: the resolver runs only
      on a miss, and an existing entry is never replaced. */
  function CacheInfo(cache: map<string, string>, p: ProcessInfo, env: Env): (r: map<string, string>)
    ensures p.name in r && r.Keys == cache.Keys + {p.name}
    ensures forall n :: n in cache ==> r[n] == cache[n]
    ensures p.name !in cache ==> r[p.name] == env.resolve(SeedUid(p, env.myUid), p.owner, p.name)
  {
    if p.name in cache then cache
    else cache[p.name := env.resolve(SeedUid(p, env.myUid), p.owner, p.name)]
  }

  /** One decoded process sample: added to the CPU total, then offered to
      the three-slot table. */
  function StepSample(s: Snapshot, p: ProcessInfo, env: Env): (r: Snapshot)
    requires WellFormed(s)
    ensures WellFormed(r)
    ensures r.cpuUsage == s.cpuUsage + p.cpuUsage
    ensures r.memoryFree == s.memoryFree && r.memoryTotal == s.memoryTotal
  {
    var total := s.cpuUsage + p.cpuUsage;
    var k := FirstLess(s.topUsage, Id, p.cpuUsage);
    if k == 3 then s.(cpuUsage := total)
    else
      var cache := CacheInfo(s.nameCache, p, env);
      s.(cpuUsage := total,
         topUsage := InsertTop(s.topUsage, Id, p.cpuUsage),
         topProcess := Displace(s.topProcess, k, cache[p.name]),
         nameCache := cache)
  }

  function StepSamples(s: Snapshot, ps: seq<ProcessInfo>, env: Env): (r: Snapshot)
    requires WellFormed(s)
    ensures WellFormed(r)
  {
    if ps == [] then s else StepSample(StepSamples(s, ps[..|ps| - 1], env), ps[|ps| - 1], env)
  }

  /** Feeding one more sample is one more step. */
  lemma StepSamplesSnoc(s: Snapshot, ps: seq<ProcessInfo>, p: ProcessInfo, env: Env)
    requires WellFormed(s)
    ensures StepSamples(s, ps + [p], env) == StepSample(StepSamples(s, ps, env), p, env)
  {
    assert (ps + [p])[..|ps|] == ps;
  }

  /** The index of the first payload that does not decode as a process, or
      the number of payloads when all decode. */
  function FailAt(ps: seq<Payload>): (k: nat)
    ensures k <= |ps|
    ensures forall j :: 0 <= j < k ==> ps[j].asProcess.Some?
    ensures k < |ps| ==> ps[k].asProcess.None?
  {
    if ps == [] || ps[0].asProcess.None? then 0 else 1 + FailAt(ps[1..])
  }

  /** The process samples of a record that are handled before the first
      decoding failure ends the record. */
  function Parsed(ps: seq<Payload>): (r: seq<ProcessInfo>)
    ensures |r| <= |ps|
  {
    if ps == [] || ps[0].asProcess.None? then [] else [ps[0].asProcess.value] + Parsed(ps[1..])
  }

  /** The samples are the payloads before the first failure, decoded. */
  lemma {:induction false} ParsedIsPrefix(ps: seq<Payload>)
    ensures |Parsed(ps)| == FailAt(ps)
    ensures forall i :: 0 <= i < |Parsed(ps)| ==> Parsed(ps)[i] == ps[i].asProcess.value
  {
    if ps != [] && ps[0].asProcess.Some? {
      ParsedIsPrefix(ps[1..]);
    }
  }

  /** A payload that decodes, reached before the failure, is the next sample. */
  lemma {:induction false} ParsedNext(ps: seq<Payload>, i: nat)
    requires i <= |Parsed(ps)| && i < |ps| && ps[i].asProcess.Some?
    ensures i < |Parsed(ps)| && Parsed(ps)[..i + 1] == Parsed(ps)[..i] + [ps[i].asProcess.value]
  {
    ParsedIsPrefix(ps);
    assert Parsed(ps)[..i + 1] == Parsed(ps)[..i] + [Parsed(ps)[i]];
  }

  /** A payload that does not decode ends the samples there. */
  lemma {:induction false} ParsedStop(ps: seq<Payload>, i: nat)
    requires i <= |Parsed(ps)| && i < |ps| && ps[i].asProcess.None?
    ensures Parsed(ps)[..i] == Parsed(ps)
  {
    ParsedIsPrefix(ps);
  }

  /** One record: an OS record overwrites the memory figures when its first
      payload decodes; a process record feeds its samples up to the first
      failure; any other record is skipped. */
  function StepRecord(s: Snapshot, r: Record, env: Env): (t: Snapshot)
    requires WellFormed(s)
    ensures WellFormed(t)
    ensures r.action != PROCESS ==>
      t.cpuUsage == s.cpuUsage && t.topUsage == s.topUsage && t.topProcess == s.topProcess && t.nameCache == s.nameCache
    ensures r.action != OS ==> t.memoryFree == s.memoryFree && t.memoryTotal == s.memoryTotal
  {
    match r.action
    case OS =>
      if |r.payloads| > 0 && r.payloads[0].asOs.Some? then
        var info := r.payloads[0].asOs.value;
        s.(memoryFree := info.freeMemory + info.bufferedMemory + info.cachedMemory,
           memoryTotal := info.totalMemory)
      else s
    case PROCESS =>
      StepSamplesTotals(s, Parsed(r.payloads), env);
      StepSamples(s, Parsed(r.payloads), env)
    case Other => s
  }

  function StepBatch(s: Snapshot, rs: seq<Record>, env: Env): (t: Snapshot)
    requires WellFormed(s)
    ensures WellFormed(t)
  {
    if rs == [] then s else StepRecord(StepBatch(s, rs[..|rs| - 1], env), rs[|rs| - 1], env)
  }

  /** The clearing done before the first record is read. */
  function Reset(s: Snapshot): (r: Snapshot)
    ensures WellFormed(r)
    ensures r.cpuUsage == 0 && r.topUsage == [0, 0, 0] && r.topProcess == ["", "", ""]
    ensures r.memoryFree == s.memoryFree && r.memoryTotal == s.memoryTotal && r.nameCache == s.nameCache
  {
    s.(cpuUsage := 0, topUsage := [0, 0, 0], topProcess := ["", "", ""])
  }

  // ---- reference views of a batch ----

  /** A sample ranks by its CPU usage. */
  function Usage(p: ProcessInfo): int {
    p.cpuUsage
  }

  /** What an empty slot stands for: no name and no usage. */
  const NoSample: ProcessInfo := ProcessInfo("", 0, "", 0)

  /** Every process sample a batch feeds, in order. */
  function BatchSamples(rs: seq<Record>): seq<ProcessInfo> {
    if rs == [] then []
    else
      var r := rs[|rs| - 1];
      BatchSamples(rs[..|rs| - 1]) + (if r.action == PROCESS then Parsed(r.payloads) else [])
  }

  /** Their usages. */
  function BatchUsages(rs: seq<Record>): seq<int> {
    Keys(BatchSamples(rs), Usage)
  }

  function Sum(us: seq<int>): int {
    if us == [] then 0 else Sum(us[..|us| - 1]) + us[|us| - 1]
  }

  /** The memory figures of the last OS record whose payload decodes. */
  function LastOs(rs: seq<Record>): Option<OsInfo> {
    if rs == [] then None
    else
      var r := rs[|rs| - 1];
      if r.action == OS && |r.payloads| > 0 && r.payloads[0].asOs.Some? then r.payloads[0].asOs
      else LastOs(rs[..|rs| - 1])
  }

  // ---- properties of one cycle ----

  lemma {:induction false} SumConcat(a: seq<int>, b: seq<int>)
    ensures Sum(a + b) == Sum(a) + Sum(b)
  {
    if b == [] {
      assert a + b == a;
    } else {
      assert (a + b)[..|a + b| - 1] == a + b[..|b| - 1];
      SumConcat(a, b[..|b| - 1]);
    }
  }

  lemma {:induction false} StepSamplesTotals(s: Snapshot, ps: seq<ProcessInfo>, env: Env)
    requires WellFormed(s)
    ensures StepSamples(s, ps, env).cpuUsage == s.cpuUsage + Sum(Keys(ps, Usage))
    ensures StepSamples(s, ps, env).topUsage == RankAll(s.topUsage, Id, Keys(ps, Usage))
    ensures StepSamples(s, ps, env).memoryFree == s.memoryFree
    ensures StepSamples(s, ps, env).memoryTotal == s.memoryTotal
  {
    if ps != [] {
      var ps' := ps[..|ps| - 1];
      StepSamplesTotals(s, ps', env);
      assert Keys(ps, Usage)[..|ps| - 1] == Keys(ps', Usage);
    }
  }

  /** The CPU total is the sum of the usage of every decoded process sample,
      whether or not it entered the table, and the table is that of offering
      those usages in order. */
  lemma {:induction false} StepBatchTotals(s: Snapshot, rs: seq<Record>, env: Env)
    requires WellFormed(s)
    ensures StepBatch(s, rs, env).cpuUsage == s.cpuUsage + Sum(BatchUsages(rs))
    ensures StepBatch(s, rs, env).topUsage == RankAll(s.topUsage, Id, BatchUsages(rs))
  {
    if rs != [] {
      var rs' := rs[..|rs| - 1];
      var r := rs[|rs| - 1];
      StepBatchTotals(s, rs', env);
      var mid := StepBatch(s, rs', env);
      var more := if r.action == PROCESS then Parsed(r.payloads) else [];
      KeysConcat(BatchSamples(rs'), more, Usage);
      SumConcat(BatchUsages(rs'), Keys(more, Usage));
      RankAllConcat(s.topUsage, Id, BatchUsages(rs'), Keys(more, Usage));
      if r.action == PROCESS {
        StepSamplesTotals(mid, Parsed(r.payloads), env);
      }
    }
  }

  /** After a cycle the three slots hold the three largest positive usages of
      the batch, largest first, padded with zeros, whatever the table held before. */
  lemma CycleTopIsThreeLargest(s: Snapshot, rs: seq<Record>, env: Env)
    ensures StepBatch(Reset(s), rs, env).topUsage == Top3(SortDesc(Filter(BatchUsages(rs), Positive(Id)), Id), 0)
    ensures StepBatch(Reset(s), rs, env).cpuUsage == Sum(BatchUsages(rs))
  {
    StepBatchTotals(Reset(s), rs, env);
    RankAllIsTopThree(Id, 0, BatchUsages(rs));
  }

  /** After a cycle the slots are ordered largest first and hold no negative usage. */
  lemma CycleTopIsOrdered(s: Snapshot, rs: seq<Record>, env: Env)
    ensures Descending(StepBatch(Reset(s), rs, env).topUsage, Id)
    ensures NonNegative(StepBatch(Reset(s), rs, env).topUsage, Id)
  {
    StepBatchTotals(Reset(s), rs, env);
    RankAllKeepsOrder([0, 0, 0], Id, BatchUsages(rs));
  }

  /** The memory figures are those of the last OS record that decodes, and are
      left as they were when there is none. */
  lemma {:induction false} CycleMemoryIsLastOs(s: Snapshot, rs: seq<Record>, env: Env)
    requires WellFormed(s)
    ensures LastOs(rs).Some? ==>
      var o := LastOs(rs).value;
      StepBatch(s, rs, env).memoryFree == o.freeMemory + o.bufferedMemory + o.cachedMemory &&
      StepBatch(s, rs, env).memoryTotal == o.totalMemory
    ensures LastOs(rs).None? ==>
      StepBatch(s, rs, env).memoryFree == s.memoryFree && StepBatch(s, rs, env).memoryTotal == s.memoryTotal
  {
    if rs != [] {
      var rs' := rs[..|rs| - 1];
      var r := rs[|rs| - 1];
      CycleMemoryIsLastOs(s, rs', env);
      if r.action == PROCESS {
        StepSamplesTotals(StepBatch(s, rs', env), Parsed(r.payloads), env);
      }
    }
  }

  /** A decoding failure at payload `k` of a process record drops that payload
      and every later one of the same record. */
  lemma FailureDropsRestOfRecord(s: Snapshot, r: Record, k: nat, env: Env)
    requires WellFormed(s)
    requires r.action == PROCESS && k < |r.payloads| && r.payloads[k].asProcess.None?
    ensures StepRecord(s, r, env) == StepRecord(s, r.(payloads := r.payloads[..k]), env)
  {
    var ps := r.payloads;
    var f := FailAt(ps);
    assert f <= k;
    assert FailAt(ps[..k]) == f by {
      if f < k {
        assert ps[..k][f] == ps[f];
      }
    }
    ParsedIsPrefix(ps);
    ParsedIsPrefix(ps[..k]);
    assert Parsed(ps[..k]) == Parsed(ps);
  }

  /** Records are independent: the batch is processed record after record, so
      a record cut short by a failure does not stop the records after it. */
  lemma {:induction false} StepBatchConcat(s: Snapshot, a: seq<Record>, b: seq<Record>, env: Env)
    requires WellFormed(s)
    ensures StepBatch(s, a + b, env) == StepBatch(StepBatch(s, a, env), b, env)
  {
    if b == [] {
      assert a + b == a;
    } else {
      var b' := b[..|b| - 1];
      assert (a + b)[..|a + b| - 1] == a + b';
      StepBatchConcat(s, a, b', env);
    }
  }

  // ---- the name cache ----

  /** Cache entries are never replaced: every label cached before the cycle
      is still cached, unchanged, after it. */
  predicate Extends(c: map<string, string>, d: map<string, string>) {
    forall n :: n in c ==> n in d && d[n] == c[n]
  }

  /** The slots show the samples `top`: slot `j` holds `top[j]`'s usage and,
      when that usage is positive, the label cached under `top[j]`'s name;
      a slot of no positive usage is unlabelled. */
  predicate Shows(s: Snapshot, top: seq<ProcessInfo>)
    requires WellFormed(s)
  {
    && s.topUsage == Keys(top, Usage)
    && forall j :: 0 <= j < 3 ==>
         if Usage(top[j]) > 0 then top[j].name in s.nameCache && s.topProcess[j] == s.nameCache[top[j].name]
         else s.topProcess[j] == ""
  }

  /** One sample moves the shown samples exactly as the ranking moves the
      usages, and only adds to the cache. */
  lemma StepSampleShows(s: Snapshot, top: seq<ProcessInfo>, p: ProcessInfo, env: Env)
    requires WellFormed(s) && Shows(s, top) && NonNegative(top, Usage)
    ensures Extends(s.nameCache, StepSample(s, p, env).nameCache)
    ensures Shows(StepSample(s, p, env), InsertTop(top, Usage, p))
  {
    FirstLessOfKeys(top, Usage, p.cpuUsage);
    var k := FirstLess(top, Usage, p.cpuUsage);
    if k < 3 {
      var r := StepSample(s, p, env);
      var top' := InsertTop(top, Usage, p);
      assert top' == Displace(top, k, p);
      assert r.topUsage == Keys(top', Usage);
      forall j | 0 <= j < 3
        ensures if Usage(top'[j]) > 0 then top'[j].name in r.nameCache && r.topProcess[j] == r.nameCache[top'[j].name]
                else r.topProcess[j] == ""
      {
        if j == k {
          assert Usage(top[k]) >= 0;
        }
      }
    }
  }

  lemma {:induction false} StepSamplesShows(s: Snapshot, top: seq<ProcessInfo>, ps: seq<ProcessInfo>, env: Env)
    requires WellFormed(s) && Shows(s, top) && Descending(top, Usage) && NonNegative(top, Usage)
    ensures Extends(s.nameCache, StepSamples(s, ps, env).nameCache)
    ensures Shows(StepSamples(s, ps, env), RankAll(top, Usage, ps))
  {
    if ps != [] {
      var ps' := ps[..|ps| - 1];
      StepSamplesShows(s, top, ps', env);
      RankAllKeepsOrder(top, Usage, ps');
      StepSampleShows(StepSamples(s, ps', env), RankAll(top, Usage, ps'), ps[|ps| - 1], env);
    }
  }

  /** Over a whole batch the cache only grows, and the slots show the samples
      the ranking of the batch's samples puts there. */
  lemma {:induction false} StepBatchShows(s: Snapshot, top: seq<ProcessInfo>, rs: seq<Record>, env: Env)
    requires WellFormed(s) && Shows(s, top) && Descending(top, Usage) && NonNegative(top, Usage)
    ensures Extends(s.nameCache, StepBatch(s, rs, env).nameCache)
    ensures Shows(StepBatch(s, rs, env), RankAll(top, Usage, BatchSamples(rs)))
  {
    if rs != [] {
      var rs' := rs[..|rs| - 1];
      var r := rs[|rs| - 1];
      StepBatchShows(s, top, rs', env);
      var more := if r.action == PROCESS then Parsed(r.payloads) else [];
      RankAllConcat(top, Usage, BatchSamples(rs'), more);
      if r.action == PROCESS {
        RankAllKeepsOrder(top, Usage, BatchSamples(rs'));
        StepSamplesShows(StepBatch(s, rs', env), RankAll(top, Usage, BatchSamples(rs')), more, env);
      }
    }
  }

  /** After any cycle the cache has only grown, and the three slots show the
      three samples of largest positive usage, largest first and, among equal
      usages, in arrival order: each with its usage and the label cached
      under its name; slots left over are zero and unlabelled. */
  lemma CycleSlotsAreTopThree(s: Snapshot, rs: seq<Record>, env: Env)
    ensures Extends(s.nameCache, StepBatch(Reset(s), rs, env).nameCache)
    ensures Shows(StepBatch(Reset(s), rs, env),
                  Top3(SortDesc(Filter(BatchSamples(rs), Positive(Usage)), Usage), NoSample))
  {
    var empty := [NoSample, NoSample, NoSample];
    assert Keys(empty, Usage) == [0, 0, 0];
    StepBatchShows(Reset(s), empty, rs, env);
    RankAllIsTopThree(Usage, NoSample, BatchSamples(rs));
  }

  /** When every sample of the batch reports the same positive usage, the
      slots show the first three samples in the order they arrived. */
  lemma EqualUsagesKeepArrivalOrder(s: Snapshot, rs: seq<Record>, env: Env, c: int)
    requires c > 0
    requires forall i :: 0 <= i < |BatchSamples(rs)| ==> BatchSamples(rs)[i].cpuUsage == c
    ensures Shows(StepBatch(Reset(s), rs, env), Top3(BatchSamples(rs), NoSample))
  {
    var ps := BatchSamples(rs);
    CycleSlotsAreTopThree(s, rs, env);
    forall i | 0 <= i < |ps| ensures Positive(Usage)(ps[i]) {
      assert Usage(ps[i]) == c;
    }
    FilterEverything(ps, Positive(Usage));
    SortDescEqualKeys(ps, Usage, c);
  }

  // ---- the uid the cache is seeded with ----

  /** A sample whose name contains the helper marker, in any letter case and
      at any position, is resolved with the service's own uid. */
  lemma HelperSeededWithOwnUid(p: ProcessInfo, myUid: int, k: nat)
    requires OccursAt(Lower(p.name), HelperMarker, k)
    ensures SeedUid(p, myUid) == myUid
  {
    ContainsAt(Lower(p.name), HelperMarker, k);
  }

  /** Any other sample is resolved with the uid it reports. */
  lemma OthersSeededWithReportedUid(p: ProcessInfo, myUid: int)
    requires forall k: nat :: !OccursAt(Lower(p.name), HelperMarker, k)
    ensures SeedUid(p, myUid) == p.uid
  {
    if Contains(Lower(p.name), HelperMarker) {
      ContainsOccurs(Lower(p.name), HelperMarker);
    }
  }

  /** The helper's own library, "libOSMCore.so", is seeded with the service's uid. */
  lemma HelperLibrarySeeded(uid: int, owner: string, usage: int, myUid: int)
    ensures SeedUid(ProcessInfo("libOSMCore.so", uid, owner, usage), myUid) == myUid
  {
    var p := ProcessInfo("libOSMCore.so", uid, owner, usage);
    assert Lower(p.name) == "libosmcore.so";
    assert Lower(p.name)[3..10] == HelperMarker;
    HelperSeededWithOwnUid(p, myUid, 3);
  }

  // ---- no carry-over between cycles ----

  /** The part of the state the ranking depends on and writes. */
  function RankingPart(s: Snapshot): (int, seq<int>, seq<string>, map<string, string>) {
    (s.cpuUsage, s.topUsage, s.topProcess, s.nameCache)
  }

  /** One sample reads and writes only the ranking part. */
  lemma StepSampleRankingOnly(s1: Snapshot, s2: Snapshot, p: ProcessInfo, env: Env)
    requires WellFormed(s1) && WellFormed(s2) && RankingPart(s1) == RankingPart(s2)
    ensures RankingPart(StepSample(s1, p, env)) == RankingPart(StepSample(s2, p, env))
  {
  }

  lemma {:induction false} StepSamplesRankingOnly(s1: Snapshot, s2: Snapshot, ps: seq<ProcessInfo>, env: Env)
    requires WellFormed(s1) && WellFormed(s2) && RankingPart(s1) == RankingPart(s2)
    ensures RankingPart(StepSamples(s1, ps, env)) == RankingPart(StepSamples(s2, ps, env))
  {
    if ps != [] {
      var ps' := ps[..|ps| - 1];
      StepSamplesRankingOnly(s1, s2, ps', env);
      StepSampleRankingOnly(StepSamples(s1, ps', env), StepSamples(s2, ps', env), ps[|ps| - 1], env);
    }
  }

  lemma {:induction false} StepBatchRankingOnly(s1: Snapshot, s2: Snapshot, rs: seq<Record>, env: Env)
    requires WellFormed(s1) && WellFormed(s2) && RankingPart(s1) == RankingPart(s2)
    ensures RankingPart(StepBatch(s1, rs, env)) == RankingPart(StepBatch(s2, rs, env))
  {
    if rs != [] {
      var rs' := rs[..|rs| - 1];
      var r := rs[|rs| - 1];
      StepBatchRankingOnly(s1, s2, rs', env);
      if r.action == PROCESS {
        StepSamplesRankingOnly(StepBatch(s1, rs', env), StepBatch(s2, rs', env), Parsed(r.payloads), env);
      }
    }
  }

  /** Two cycles on the same batch, started from states with the same name
      cache, produce the same CPU total, slots and cache, whatever the earlier
      slots, total and memory figures were. */
  lemma CycleForgetsPreviousRanking(s1: Snapshot, s2: Snapshot, rs: seq<Record>, env: Env)
    requires s1.nameCache == s2.nameCache
    ensures RankingPart(StepBatch(Reset(s1), rs, env)) == RankingPart(StepBatch(Reset(s2), rs, env))
  {
    StepBatchRankingOnly(Reset(s1), Reset(s2), rs, env);
  }

  /** Two cycles in a row on the same batch agree: the second, which starts
      from the cache the first one filled, gives the same CPU total, memory
      figures, usages and labels, and adds nothing the first one's cache
      would change. */
  lemma ConsecutiveCyclesAgree(s: Snapshot, rs: seq<Record>, env: Env)
    ensures var t := StepBatch(Reset(s), rs, env);
            var t' := StepBatch(Reset(t), rs, env);
            t'.cpuUsage == t.cpuUsage && t'.memoryFree == t.memoryFree && t'.memoryTotal == t.memoryTotal &&
            t'.topUsage == t.topUsage && t'.topProcess == t.topProcess && Extends(t.nameCache, t'.nameCache)
  {
    var t := StepBatch(Reset(s), rs, env);
    var t' := StepBatch(Reset(t), rs, env);
    var top := Top3(SortDesc(Filter(BatchSamples(rs), Positive(Usage)), Usage), NoSample);
    CycleSlotsAreTopThree(s, rs, env);
    CycleSlotsAreTopThree(t, rs, env);
    CycleTopIsThreeLargest(s, rs, env);
    CycleTopIsThreeLargest(t, rs, env);
    CycleMemoryIsLastOs(Reset(s), rs, env);
    CycleMemoryIsLastOs(Reset(t), rs, env);
    assert t'.topProcess == t.topProcess by {
      forall j | 0 <= j < 3 ensures t'.topProcess[j] == t.topProcess[j] {
        if Usage(top[j]) > 0 {
          assert t'.nameCache[top[j].name] == t.nameCache[top[j].name];
        }
      }
    }
  }

  /** Strict comparison: a sample never displaces a slot whose usage is at
      least its own, so among exact ties the first-seen sample keeps its
      slot; the slots up to such a slot keep usage and label. */
  lemma TieNeverDisplaces(s: Snapshot, p: ProcessInfo, env: Env, j: nat)
    requires WellFormed(s) && Descending(s.topUsage, Id)
    requires j < 3 && p.cpuUsage <= s.topUsage[j]
    ensures StepSample(s, p, env).topUsage[..j + 1] == s.topUsage[..j + 1]
    ensures StepSample(s, p, env).topProcess[..j + 1] == s.topProcess[..j + 1]
  {
    var k := FirstLess(s.topUsage, Id, p.cpuUsage);
    assert k > j;
  }

  /** A sample no larger than every slot only adds to the CPU total. */
  lemma SmallSampleDropped(s: Snapshot, p: ProcessInfo, env: Env)
    requires WellFormed(s)
    requires forall j :: 0 <= j < 3 ==> p.cpuUsage <= s.topUsage[j]
    ensures StepSample(s, p, env) == s.(cpuUsage := s.cpuUsage + p.cpuUsage)
  {
  }

  /** Total 1000, free 200, buffered 50, cached 50 gives 300 available out of 1000. */
  lemma MemoryExample(s: Snapshot, env: Env, rest: seq<Payload>)
    requires WellFormed(s)
    ensures var t := StepBatch(s, [Record(OS, [Payload(Some(OsInfo(1000, 200, 50, 50)), None)] + rest)], env);
            t.memoryFree == 300 && t.memoryTotal == 1000
  {
    var rs := [Record(OS, [Payload(Some(OsInfo(1000, 200, 50, 50)), None)] + rest)];
    assert rs[..0] == [];
  }
}
