/** The background service: its fields, the per-cycle aggregation of
    `onRecvData`, the battery receiver, and the wake/sleep life cycle that
    replaces this service's pending poll requests by one when the screen
    turns on and drops them when it turns off. */
module Monitor {
  import opened Wrappers
  import opened Sequences
  import opened JavaLang
  import opened Ipc
  import opened Ranking
  import opened Aggregation
  import opened Battery

  /** The broadcasts the screen receiver is handed. */
  datatype ScreenAction = ScreenOff | ScreenOn | OtherBroadcast

  class OSMonitorService {
    /** The IPC service the requests go to. */
    const ipcService: IpcService
    /** `android.os.Process.myUid()`. */
    const myUid: int
    /** The label lookup `ProcessUtil` performs when it caches a name. */
    const resolver: (int, string, string) -> string

    var updateInterval: int
    var isRegistered: bool

    var cpuUsage: int
    const topUsage: array<int>
    const topProcess: array<string>

    var memoryTotal: int
    var memoryFree: int

    var battLevel: int
    var temperature: int
    var isRegisterBattery: bool

    /** `ProcessUtil`'s cache from raw process name to display label. */
    var nameCache: map<string, string>

    /** The filters the platform holds for the screen receiver and for the
        battery receiver. */
    ghost var screenFilters: nat
    ghost var batteryReceivers: nat

    /** Three slots per table, and the registration flags agree with what the
        platform holds: the screen receiver is registered with its two
        filters exactly while `isRegistered`, the battery receiver exactly
        once while `isRegisterBattery`. */
    ghost predicate Valid()
      reads this
    {
      && topUsage.Length == 3 && topProcess.Length == 3
      && screenFilters == (if isRegistered then 2 else 0)
      && batteryReceivers == (if isRegisterBattery then 1 else 0)
    }

    /** The fields one cycle writes. */
    function State(): Snapshot
      reads this, topUsage, topProcess
    {
      Snapshot(cpuUsage, topUsage[..], topProcess[..], memoryFree, memoryTotal, nameCache)
    }

    function Environment(): Env {
      Env(myUid, resolver)
    }

    /** The field initialisers, with the IPC service, the own uid and the
        label lookup supplied from outside. */
    constructor (ipc: IpcService, uid: int, lookup: (int, string, string) -> string)
      ensures Valid() && ipcService == ipc && myUid == uid && resolver == lookup
      ensures fresh(topUsage) && fresh(topProcess)
      ensures updateInterval == 2 && !isRegistered && !isRegisterBattery
      ensures State() == Snapshot(0, [0, 0, 0], ["", "", ""], 0, 0, map[])
      ensures battLevel == 0 && temperature == 0
    {
      ipcService := ipc;
      myUid := uid;
      resolver := lookup;
      updateInterval := 2;
      isRegistered := false;
      cpuUsage := 0;
      topUsage := new int[3](_ => 0);
      topProcess := new string[3](_ => "");
      memoryTotal := 0;
      memoryFree := 0;
      battLevel := 0;
      temperature := 0;
      isRegisterBattery := false;
      nameCache := map[];
      screenFilters := 0;
      batteryReceivers := 0;
      new;
      assert topUsage[..] == [0, 0, 0] && topProcess[..] == ["", "", ""];
    }

    // ---- battery ----

    /** `battReceiver.onReceive`: the temperature is always overwritten; the
        level only when the event carries a usable level and scale. */
    method OnBatteryChanged(level: Option<Int32>, scale: Option<Int32>, temp: Option<Int32>)
      modifies this`battLevel, this`temperature
      ensures temperature == IntExtra(temp)
      ensures battLevel == BatteryLevel(old(battLevel), IntExtra(level), IntExtra(scale))
    {
      var rawlevel := IntExtra(level);
      var sc := IntExtra(scale);
      temperature := IntExtra(temp);
      if rawlevel >= 0 && sc > 0 {
        battLevel := JavaDiv(Wrap32((rawlevel as int) * 100), sc);
      }
    }

    /** `startBatteryMonitor`: registers the battery receiver unless it already is. */
    method StartBatteryMonitor()
      requires Valid()
      modifies this`isRegisterBattery, this`batteryReceivers
      ensures Valid() && isRegisterBattery && batteryReceivers == 1
    {
      if !isRegisterBattery {
        batteryReceivers := batteryReceivers + 1;
        isRegisterBattery := true;
      }
    }

    /** `stopBatteryMonitor`: unregisters the battery receiver if it is registered. */
    method StopBatteryMonitor()
      requires Valid()
      modifies this`isRegisterBattery, this`batteryReceivers
      ensures Valid() && !isRegisterBattery && batteryReceivers == 0
    {
      if isRegisterBattery {
        batteryReceivers := batteryReceivers - 1;
        isRegisterBattery := false;
      }
    }

    // ---- life cycle ----

    /** `wakeUp`: re-reads the interval, replaces this listener's pending
        requests by one immediate request, and starts the battery monitor. */
    method WakeUp(interval: int)
      requires Valid()
      modifies this`updateInterval, this`isRegisterBattery, this`batteryReceivers, ipcService
      ensures Valid() && updateInterval == interval && isRegisterBattery
      ensures ipcService.requests == WithoutListener(old(ipcService.requests), this) + [Request(PollActions, 0, this)]
      ensures PendingFor(ipcService.requests, this) == [Request(PollActions, 0, this)]
      ensures forall l: object :: l != this ==> PendingFor(ipcService.requests, l) == PendingFor(old(ipcService.requests), l)
    {
      updateInterval := interval;
      ipcService.RemoveRequest(this);
      ipcService.AddRequest(PollActions, 0, this);
      StartBatteryMonitor();
      var q := Request(PollActions, 0, this);
      ReplaceLeavesOne(old(ipcService.requests), q);
      forall l: object | l != this
        ensures PendingFor(ipcService.requests, l) == PendingFor(old(ipcService.requests), l)
      {
        var rest := WithoutListener(old(ipcService.requests), this);
        RemoveKeepsOthers(old(ipcService.requests), this, l);
        Sequences.FilterConcat(rest, [q], (r: Request) => r.listener == l);
        assert [q][..0] == [];
      }
    }

    /** `goSleep`: drops this listener's pending requests and stops the battery monitor. */
    method GoSleep()
      requires Valid()
      modifies this`isRegisterBattery, this`batteryReceivers, ipcService
      ensures Valid() && !isRegisterBattery
      ensures ipcService.requests == WithoutListener(old(ipcService.requests), this)
      ensures PendingFor(ipcService.requests, this) == []
    {
      ipcService.RemoveRequest(this);
      StopBatteryMonitor();
      RemoveClearsListener(old(ipcService.requests), this);
    }

    /** `initService`: registers the screen receiver unless it already is, then wakes up. */
    method InitService(interval: int)
      requires Valid()
      modifies this`isRegistered, this`screenFilters, this`updateInterval, this`isRegisterBattery,
               this`batteryReceivers, ipcService
      ensures Valid() && isRegistered && isRegisterBattery && updateInterval == interval
      ensures ipcService.requests == WithoutListener(old(ipcService.requests), this) + [Request(PollActions, 0, this)]
      ensures PendingFor(ipcService.requests, this) == [Request(PollActions, 0, this)]
      ensures forall l: object :: l != this ==> PendingFor(ipcService.requests, l) == PendingFor(old(ipcService.requests), l)
    {
      if !isRegistered {
        screenFilters := screenFilters + 2;
        isRegistered := true;
      }
      WakeUp(interval);
    }

    /** `endService`: unregisters the screen receiver if it is registered,
        then goes to sleep. */
    method EndService()
      requires Valid()
      modifies this`isRegistered, this`screenFilters, this`isRegisterBattery, this`batteryReceivers, ipcService
      ensures Valid() && !isRegistered && !isRegisterBattery
      ensures PendingFor(ipcService.requests, this) == []
    {
      if isRegistered {
        screenFilters := 0;
        isRegistered := false;
      }
      GoSleep();
    }

    /** `mReceiver.onReceive`: screen off puts the service to sleep, screen
        on wakes it up, any other broadcast is ignored. */
    method OnScreenEvent(action: ScreenAction, interval: int)
      requires Valid()
      modifies this`updateInterval, this`isRegisterBattery, this`batteryReceivers, ipcService
      ensures Valid()
      ensures action == ScreenOff ==> ipcService.requests == WithoutListener(old(ipcService.requests), this)
      ensures action == ScreenOff ==> updateInterval == old(updateInterval)
      ensures action == ScreenOff ==> PendingFor(ipcService.requests, this) == [] && !isRegisterBattery
      ensures action == ScreenOn ==>
        ipcService.requests == WithoutListener(old(ipcService.requests), this) + [Request(PollActions, 0, this)]
      ensures action == ScreenOn ==>
        forall l: object :: l != this ==> PendingFor(ipcService.requests, l) == PendingFor(old(ipcService.requests), l)
      ensures action == ScreenOn ==>
        PendingFor(ipcService.requests, this) == [Request(PollActions, 0, this)] &&
        isRegisterBattery && updateInterval == interval
      ensures action == OtherBroadcast ==> ipcService.requests == old(ipcService.requests) && unchanged(this)
    {
      if action == ScreenOff {
        GoSleep();
      }
      if action == ScreenOn {
        WakeUp(interval);
      }
    }

    // ---- one cycle ----

    /** `onRecvData`: with a message, clears the table and the CPU total and
        folds every record into the state; with or without one, schedules
        the next request after the current interval. */
    method OnRecvData(result: Option<seq<Record>>)
      requires Valid()
      modifies this`cpuUsage, this`memoryFree, this`memoryTotal, this`nameCache, topUsage, topProcess, ipcService
      ensures Valid()
      ensures result.None? ==> State() == old(State())
      ensures result.Some? ==> State() == StepBatch(Reset(old(State())), result.value, Environment())
      ensures result.Some? ==> topUsage[..] == Top3(SortDesc(Filter(BatchUsages(result.value), Positive(Id)), Id), 0)
      ensures result.Some? ==> Descending(topUsage[..], Id) && NonNegative(topUsage[..], Id)
      ensures result.Some? ==>
        Shows(State(), Top3(SortDesc(Filter(BatchSamples(result.value), Positive(Usage)), Usage), NoSample))
      ensures result.Some? ==> cpuUsage == Sum(BatchUsages(result.value))
      ensures ipcService.requests == old(ipcService.requests) + [Request(PollActions, updateInterval, this)]
      ensures PendingFor(ipcService.requests, this) ==
              PendingFor(old(ipcService.requests), this) + [Request(PollActions, updateInterval, this)]
    {
      AddAppendsPending(old(ipcService.requests), Request(PollActions, updateInterval, this));
      if result.None? {
        ipcService.AddRequest(PollActions, updateInterval, this);
        return;
      }
      var batch := result.value;
      cpuUsage := 0;
      ClearTable();
      assert State() == Reset(old(State()));
      ProcessBatch(batch);
      CycleTopIsThreeLargest(old(State()), batch, Environment());
      CycleTopIsOrdered(old(State()), batch, Environment());
      CycleSlotsAreTopThree(old(State()), batch, Environment());
      ipcService.AddRequest(PollActions, updateInterval, this);
    }

    /** The record loop: every record of the message, in order. */
    method ProcessBatch(batch: seq<Record>)
      requires Valid()
      modifies this`cpuUsage, this`memoryFree, this`memoryTotal, this`nameCache, topUsage, topProcess
      ensures State() == StepBatch(old(State()), batch, Environment())
    {
      var index := 0;
      while index < |batch|
        invariant 0 <= index <= |batch|
        invariant State() == StepBatch(old(State()), batch[..index], Environment())
      {
        assert batch[..index + 1][..index] == batch[..index];
        ProcessRecord(batch[index]);
        index := index + 1;
      }
      assert batch[..|batch|] == batch;
    }

    /** The "empty" loop: every slot back to no usage and no label. */
    method ClearTable()
      requires Valid()
      modifies topUsage, topProcess
      ensures topUsage[..] == [0, 0, 0] && topProcess[..] == ["", "", ""]
    {
      for index := 0 to 3
        invariant forall j :: 0 <= j < index ==> topUsage[j] == 0 && topProcess[j] == ""
      {
        topUsage[index] := 0;
        topProcess[index] := "";
      }
    }

    /** The body of the `try` block for one record: a failure to decode a
        payload ends the record, keeping what earlier payloads did. */
    method ProcessRecord(rec: Record)
      requires Valid()
      modifies this`cpuUsage, this`memoryFree, this`memoryTotal, this`nameCache, topUsage, topProcess
      ensures State() == StepRecord(old(State()), rec, Environment())
    {
      if rec.action == OS {
        if |rec.payloads| == 0 || rec.payloads[0].asOs.None? {
          return;
        }
        var info := rec.payloads[0].asOs.value;
        memoryFree := info.freeMemory + info.bufferedMemory + info.cachedMemory;
        memoryTotal := info.totalMemory;
      }
      if rec.action != PROCESS {
        return;
      }
      ProcessSamples(rec.payloads);
    }

    /** The payload loop of a process record: every payload decodes as a
        process sample and is inserted, until the first one that does not. */
    method ProcessSamples(ps: seq<Payload>)
      requires Valid()
      modifies this`cpuUsage, this`nameCache, topUsage, topProcess
      ensures State() == StepSamples(old(State()), Parsed(ps), Environment())
    {
      ghost var parsed := Parsed(ps);
      ghost var done: seq<ProcessInfo> := [];
      ghost var start := State();
      var count := 0;
      while count < |ps|
        invariant 0 <= count <= |ps| && count <= |parsed| && done == parsed[..count]
        invariant Valid() && WellFormed(start)
        invariant State() == StepSamples(start, done, Environment())
      {
        if ps[count].asProcess.None? {
          ParsedStop(ps, count);
          return;
        }
        var item := ps[count].asProcess.value;
        ParsedNext(ps, count);
        FeedSample(start, done, item);
        done := done + [item];
        count := count + 1;
      }
      assert done == parsed;
    }

    /** One more sample fed after those already fed from `start`. */
    method FeedSample(ghost start: Snapshot, ghost done: seq<ProcessInfo>, item: ProcessInfo)
      requires Valid() && WellFormed(start)
      requires State() == StepSamples(start, done, Environment())
      modifies this`cpuUsage, this`nameCache, topUsage, topProcess
      ensures Valid() && State() == StepSamples(start, done + [item], Environment())
    {
      InsertSample(item);
      StepSamplesSnoc(start, done, item, Environment());
    }

    /** The body of the payload loop: adds the usage to the total; the first
        slot strictly below the sample takes it after the `push` shift, its
        label coming from the name cache. */
    method InsertSample(item: ProcessInfo)
      requires Valid()
      modifies this`cpuUsage, this`nameCache, topUsage, topProcess
      ensures State() == StepSample(old(State()), item, Environment())
    {
      cpuUsage := cpuUsage + item.cpuUsage;
      var check := FindSlot(item.cpuUsage);
      if check == 3 {
        return;
      }
      PlaceSample(item, check);
    }

    /** Slot `k` takes the sample after the `push` shift, labelled from the
        name cache once the cache has been filled. */
    method PlaceSample(item: ProcessInfo, k: nat)
      requires Valid() && k < 3
      modifies this`nameCache, topUsage, topProcess
      ensures nameCache == CacheInfo(old(nameCache), item, Environment())
      ensures topUsage[..] == Displace(old(topUsage[..]), k, item.cpuUsage)
      ensures topProcess[..] == Displace(old(topProcess[..]), k, nameCache[item.name])
    {
      ShiftDown(k);
      FillCache(item);
      ghost var shifted, labels := topUsage[..], topProcess[..];
      topUsage[k] := item.cpuUsage;
      topProcess[k] := nameCache[item.name];
      assert topUsage[..] == shifted[k := item.cpuUsage];
      assert topProcess[..] == labels[k := nameCache[item.name]];
      DisplaceOverwrite(old(topUsage[..]), k, item.cpuUsage);
      DisplaceOverwrite(old(topProcess[..]), k, nameCache[item.name]);
    }

    /** The `check` scan: the first slot whose usage is strictly below `usage`,
        or 3 when the sample is no larger than every slot. */
    method FindSlot(usage: int) returns (check: nat)
      requires Valid()
      ensures check <= 3
      ensures forall j :: 0 <= j < check ==> usage <= topUsage[j]
      ensures check < 3 ==> topUsage[check] < usage
      ensures check == FirstLess(topUsage[..], Id, usage)
    {
      check := 0;
      while check < 3 && usage <= topUsage[check]
        invariant 0 <= check <= 3
        invariant forall j :: 0 <= j < check ==> usage <= topUsage[j]
      {
        check := check + 1;
      }
    }

    /** `checkPackageInformation` and `doCacheInfo`: on a miss the label is
        resolved and stored, seeded with the own uid for the helper process. */
    method FillCache(item: ProcessInfo)
      modifies this`nameCache
      ensures nameCache == CacheInfo(old(nameCache), item, Environment())
    {
      if item.name !in nameCache {
        var uid := item.uid;
        if Contains(Lower(item.name), HelperMarker) {
          uid := myUid;
        }
        assert uid == SeedUid(item, myUid);
        nameCache := nameCache[item.name := resolver(uid, item.owner, item.name)];
      }
    }

    /** The `push` loop: slots `k + 1 ..` take the values of the slots above
        them, the last one falling off; slot `k` keeps its value. */
    method ShiftDown(k: nat)
      requires Valid() && k < 3
      modifies topUsage, topProcess
      ensures topUsage[..] == Displace(old(topUsage[..]), k, old(topUsage[k]))
      ensures topProcess[..] == Displace(old(topProcess[..]), k, old(topProcess[k]))
    {
      var push := 2;
      while push > k
        invariant k <= push <= 2
        invariant forall j :: 0 <= j <= push ==> topUsage[j] == old(topUsage[j]) && topProcess[j] == old(topProcess[j])
        invariant forall j :: push < j < 3 ==> topUsage[j] == old(topUsage[j - 1]) && topProcess[j] == old(topProcess[j - 1])
      {
        topUsage[push] := topUsage[push - 1];
        topProcess[push] := topProcess[push - 1];
        push := push - 1;
      }
    }
  }

  /** Overwriting the displaced slot is displacing the new value directly. */
  lemma DisplaceOverwrite<T>(t: seq<T>, k: nat, x: T)
    requires k < |t|
    ensures Displace(t, k, t[k])[k := x] == Displace(t, k, x)
  {
  }
}
