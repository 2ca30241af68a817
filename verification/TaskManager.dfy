// The manager of node/task/manager.go: each method runs under the manager's lock, so it is one atomic step over
// the wheel, the task store, the result store and the module table. What the id generator, the file system, the
// encoder, the stores and the executed commands answer is passed in.

module TaskModel {
  import opened ItemIDs
  import opened WheelModel
  import opened ModuleNames

  datatype JobType = Unknown | Cmd | File | Plugin

  datatype Job = Job(jobType: JobType, interval: int, extra: string)

  datatype Result = Result(id: int, beginTime: int, endTime: int, errorMsg: string, extra: string)

  const ZERO_RESULT := Result(0, 0, 0, "", "")

  datatype Error = IdError | InvalidParameter | WriteError | InvalidPluginName | MarshalError | StoreError | NotFound

  datatype Answer<+T> = Ok(value: T) | Fail(error: Error)

  // What the manager's lock protects.
  datatype Core = Core(wheel: Wheel, dbTask: map<ItemID, Job>, dbResult: map<ItemID, Result>,
                       modules: map<string, string>)

  // ---- AddTask ----

  datatype AddEnv = AddEnv(newId: Answer<Int64>, writeOk: bool, marshalOk: bool, putOk: bool)

  // The module that AddTask looks a plugin task up under: the default version stands in for a missing one.
  function LookupName(extra: string): string
  {
    if '@' in extra then extra else KeyName(extra, DEFAULT_VERSION)
  }

  // AddTask checks in this order: id, the checks of the job type, encoding, store. A job of unknown type passes the
  // first checks and never encodes.
  function Refusal(c: Core, job: Job, env: AddEnv): Answer<Int64>
  {
    if env.newId.Fail? then env.newId
    else if job.jobType == File && job.extra == "" then Fail(InvalidParameter)
    else if job.jobType == File && !env.writeOk then Fail(WriteError)
    else if job.jobType == Plugin && LookupName(job.extra) !in c.modules then Fail(InvalidPluginName)
    else if !env.marshalOk || job.jobType == Unknown then Fail(MarshalError)
    else if !env.putOk then Fail(StoreError)
    else env.newId
  }

  function AddTask(c: Core, job: Job, env: AddEnv): (Core, Answer<Int64>)
    requires c.wheel.cursor < |c.wheel.slots|
    requires Refusal(c, job, env).Ok? ==> CanAdd(c.wheel, job.interval)
  {
    var r := Refusal(c, job, env);
    if r.Fail? then (c, r)
    else (c.(wheel := Add(c.wheel, r.value, job.interval), dbTask := c.dbTask[KeyOf(r.value) := job]), r)
  }

  // ---- The script of a file task ----

  function Digits(n: nat): string
  {
    if n < 10 then [('0' as int + n) as char] else Digits(n / 10) + Digits(n % 10)
  }

  // An integer, and an array of bytes, printed with %v.
  function PrintedInt(i: int): string
  {
    if i < 0 then "-" + Digits(-i) else Digits(i)
  }

  function PrintedBytes(n: seq<Byte>): string
  {
    "[" + Joined(n) + "]"
  }

  function Joined(n: seq<Byte>): string
  {
    if n == [] then "" else if |n| == 1 then Digits(n[0]) else Joined(n[..|n| - 1]) + " " + Digits(n[|n| - 1])
  }

  lemma {:induction false} DigitsStart(n: nat)
    ensures Digits(n) != [] && '0' <= Digits(n)[0] <= '9'
  {
    if n >= 10 {
      DigitsStart(n / 10);
    }
  }

  // AddTask names the script after the id, DeleteTask after the bytes of the id: no deletion finds a script, not even
  // that of another task.
  lemma ScriptNamesDiffer(id: Int64, deleted: ItemID)
    ensures PrintedInt(id) + ".sh" != PrintedBytes(deleted) + ".sh"
  {
    if id >= 0 {
      DigitsStart(id);
    }
    assert (PrintedInt(id) + ".sh")[0] == PrintedInt(id)[0];
    assert (PrintedBytes(deleted) + ".sh")[0] == '[';
  }

  // ---- The other steps ----

  function DeleteTask(c: Core, uuid: ItemID, deleteOk: bool): (Core, Answer<bool>)
  {
    if !deleteOk then (c, Fail(StoreError))
    else
      var (w, isDelete) := Delete(c.wheel, Int64Of(uuid));
      (c.(wheel := w, dbTask := c.dbTask - {uuid}), Ok(isDelete))
  }

  function CheckTask(c: Core, uuid: ItemID): Answer<bool>
  {
    if uuid in c.dbTask then Ok(Int64Of(uuid) in c.wheel.live) else Fail(NotFound)
  }

  // What running one task comes to: whether the stored job decodes, the times and output of the command, and
  // whether the result can be stored.
  datatype Exec = Exec(unmarshalOk: bool, beginTime: int, endTime: int, errorMsg: string, output: string, putOk: bool)

  predicate Runs(c: Core, tid: Int64, x: Exec)
  {
    KeyOf(tid) in c.dbTask && x.unmarshalOk
  }

  function ResultForJob(modules: map<string, string>, job: Job, tid: Int64, x: Exec): Result
  {
    match job.jobType
    case Cmd => Result(tid, x.beginTime, x.endTime, x.errorMsg, x.output)
    case File => Result(tid, x.beginTime, x.endTime, x.errorMsg, x.output)
    case Plugin => if job.extra in modules then Result(tid, x.beginTime, x.endTime, x.errorMsg, "") else ZERO_RESULT
    case Unknown => ZERO_RESULT
  }

  function ResultOf(c: Core, tid: Int64, x: Exec): Result
  {
    if !Runs(c, tid, x) then Result(tid, x.beginTime, x.endTime, x.errorMsg, "")
    else ResultForJob(c.modules, c.dbTask[KeyOf(tid)], tid, x)
  }

  // The result store after the first n tasks of a batch: a task that cannot be read leaves nothing there.
  function StoredUpTo(c: Core, tids: seq<Int64>, xs: seq<Exec>, n: nat): map<ItemID, Result>
    requires n <= |tids| == |xs|
  {
    if n == 0 then c.dbResult
    else
      var r := StoredUpTo(c, tids, xs, n - 1);
      if Runs(c, tids[n - 1], xs[n - 1]) && xs[n - 1].putOk
      then r[KeyOf(tids[n - 1]) := ResultOf(c, tids[n - 1], xs[n - 1])]
      else r
  }

  function ExecuteJobs(c: Core, tids: seq<Int64>, xs: seq<Exec>): (Core, seq<Result>)
    requires |tids| == |xs|
  {
    (c.(dbResult := StoredUpTo(c, tids, xs, |tids|)),
     seq(|tids|, i requires 0 <= i < |tids| => ResultOf(c, tids[i], xs[i])))
  }

  // ---- What is accepted ----

  // A task is accepted exactly if its id can be drawn, its type is known, a script is there and can be written, a
  // plugin is in the table under its name with the default version standing in for a missing one, and the job can be
  // encoded and stored. The first of these that fails gives the error, and leaves everything as it was.
  lemma AddTaskAnswers(c: Core, job: Job, env: AddEnv)
    requires c.wheel.cursor < |c.wheel.slots| && CanAdd(c.wheel, job.interval)
    ensures
      var (c', r) := AddTask(c, job, env);
      var drawn := env.newId.Ok?;
      var script := job.jobType == File ==> job.extra != "";
      var written := job.jobType == File ==> env.writeOk;
      var listed := job.jobType == Plugin ==>
                      (if '@' in job.extra then job.extra else job.extra + "@" + DEFAULT_VERSION) in c.modules;
      var encoded := env.marshalOk && job.jobType != Unknown;
      && (r.Ok? <==> drawn && script && written && listed && encoded && env.putOk)
      && (!drawn ==> r == env.newId)
      && (drawn && !script ==> r == Fail(InvalidParameter))
      && (drawn && script && !written ==> r == Fail(WriteError))
      && (drawn && script && written && !listed ==> r == Fail(InvalidPluginName))
      && (drawn && script && written && listed && !encoded ==> r == Fail(MarshalError))
      && (drawn && script && written && listed && encoded && !env.putOk ==> r == Fail(StoreError))
      && (r.Fail? ==> c' == c)
      && (r.Ok? ==>
            && r == env.newId && c'.dbTask == c.dbTask[KeyOf(r.value) := job] && r.value in c'.wheel.live
            && c'.dbResult == c.dbResult && c'.modules == c.modules)
  {
  }

  // The name that a plugin task without a version is looked up under is the id of the module file without one.
  lemma LookupIsLoaded(stem: string)
    requires '@' !in stem
    ensures Parseable(stem + SUFFIX) && LookupName(stem) == KeyOfFile(stem + SUFFIX)
  {
    ParsePlain(stem);
  }

  // And a plugin task with a version is looked up as the loader reads the file of that name and version.
  lemma VersionedLookupIsLoaded(name: string, version: string)
    requires '@' !in version
    ensures var extra := name + "@" + version;
            Parseable(extra + SUFFIX) && LookupName(extra) == KeyOfFile(extra + SUFFIX) == extra
  {
    ParseRoundTrip(name, version);
    assert (name + "@" + version)[|name|] == '@';
  }

  // ---- What a batch leaves behind ----

  // What a result says, field by field.
  lemma ResultFields(c: Core, tid: Int64, x: Exec)
    ensures
      var r, key := ResultOf(c, tid, x), KeyOf(tid);
      // A task that cannot be read reports that error.
      && (key !in c.dbTask || !x.unmarshalOk ==>
            && r.id == tid && r.errorMsg == x.errorMsg && r.extra == ""
            && r.beginTime == x.beginTime && r.endTime == x.endTime)
      // A command and a script report their times, their error and their output.
      && (key in c.dbTask && x.unmarshalOk && (c.dbTask[key].jobType == Cmd || c.dbTask[key].jobType == File) ==>
            && r.id == tid && r.errorMsg == x.errorMsg && r.extra == x.output
            && r.beginTime == x.beginTime && r.endTime == x.endTime)
      // A plugin that is there reports its times and its error.
      && (key in c.dbTask && x.unmarshalOk && c.dbTask[key].jobType == Plugin && c.dbTask[key].extra in c.modules ==>
            && r.id == tid && r.errorMsg == x.errorMsg && r.extra == ""
            && r.beginTime == x.beginTime && r.endTime == x.endTime)
      && (key in c.dbTask && x.unmarshalOk && c.dbTask[key].jobType == Plugin && c.dbTask[key].extra !in c.modules ==>
            r == Result(0, 0, 0, "", ""))
  {
  }

  // A result carries the id of its task except for a plugin task whose stored name is not in the table (and a
  // task of unknown type): that one gets the zero result.
  lemma ResultCarriesId(c: Core, tid: Int64, x: Exec)
    ensures ResultOf(c, tid, x).id == tid <==>
              || tid == 0
              || !Runs(c, tid, x)
              || c.dbTask[KeyOf(tid)].jobType in {Cmd, File}
              || (c.dbTask[KeyOf(tid)].jobType == Plugin && c.dbTask[KeyOf(tid)].extra in c.modules)
  {
  }

  // A batch of different tasks stores exactly the results of those that run and can be stored, under their own
  // keys, and leaves every other key alone.
  lemma {:induction false} StoredResults(c: Core, tids: seq<Int64>, xs: seq<Exec>, n: nat, key: ItemID)
    requires n <= |tids| == |xs|
    requires forall i, j :: 0 <= i < j < |tids| ==> tids[i] != tids[j]
    ensures forall i :: 0 <= i < n && key == KeyOf(tids[i]) && Runs(c, tids[i], xs[i]) && xs[i].putOk ==>
              key in StoredUpTo(c, tids, xs, n) && StoredUpTo(c, tids, xs, n)[key] == ResultOf(c, tids[i], xs[i])
    ensures (forall i :: 0 <= i < n && key == KeyOf(tids[i]) ==> !(Runs(c, tids[i], xs[i]) && xs[i].putOk)) ==>
              (key in StoredUpTo(c, tids, xs, n) <==> key in c.dbResult)
              && (key in c.dbResult ==> StoredUpTo(c, tids, xs, n)[key] == c.dbResult[key])
  {
    if n > 0 {
      StoredResults(c, tids, xs, n - 1, key);
      forall i | 0 <= i < n - 1
        ensures KeyOf(tids[i]) != KeyOf(tids[n - 1])
      {
        KeysDistinct(tids[i], tids[n - 1]);
      }
    }
  }
}

module TaskManager {
  import opened GoInt
  import opened ItemIDs
  import opened TimeWheels
  import W = WheelModel
  import M = ModuleNames
  import opened T = TaskModel

  lemma SecondsAreTicks(interval: int)
    ensures Quo(DEFAULT_INTERVAL, W.NANOS_PER_SECOND) > 0
    ensures W.Ticks(interval * W.NANOS_PER_SECOND, DEFAULT_INTERVAL) == interval
  {
    if interval < 0 {
      NegativeProduct(-interval, W.NANOS_PER_SECOND);
    }
  }

  class Manager {
    const tw: TimeWheel
    var dbTask: map<ItemID, Job>
    var dbResult: map<ItemID, Result>
    var modules: map<string, string>

    ghost predicate Valid()
      reads this, tw, tw.slots, tw.items
    {
      tw.Valid() && tw.interval == DEFAULT_INTERVAL && tw.maxSlot == DEFAULT_SLOT
    }

    ghost function Value(): Core
      requires Valid()
      reads this, tw, tw.slots, tw.items
    {
      Core(tw.Abs(), dbTask, dbResult, modules)
    }

    // Whatever interval and slot count the caller asks for, the wheel is made with the defaults.
    constructor (interval: int, slotNum: int)
      ensures Valid() && fresh(tw) && fresh(tw.slots) && fresh(tw.items)
      ensures Value() == Core(W.Empty(DEFAULT_SLOT), map[], map[], map[])
    {
      tw := new TimeWheel(DEFAULT_INTERVAL, DEFAULT_SLOT);
      dbTask, dbResult, modules := map[], map[], map[];
    }

    method AddTask(job: Job, env: AddEnv) returns (r: Answer<Int64>)
      requires Valid()
      requires Refusal(Value(), job, env).Ok? ==> W.CanAdd(tw.Abs(), job.interval)
      modifies this, tw, tw.slots
      ensures Valid() && fresh(tw.items - old(tw.items))
      ensures Value() == T.AddTask(old(Value()), job, env).0
      ensures r == T.AddTask(old(Value()), job, env).1
      ensures r.Ok? <==>
                && env.newId.Ok? && job.jobType != Unknown && env.marshalOk && env.putOk
                && (job.jobType == File ==> job.extra != "" && env.writeOk)
                && (job.jobType == Plugin ==>
                      (if '@' in job.extra then job.extra else job.extra + "@" + M.DEFAULT_VERSION) in old(modules))
      ensures r.Ok? ==> r == env.newId && dbTask == old(dbTask)[KeyOf(r.value) := job] && dbResult == old(dbResult)
      ensures r.Fail? ==> Value() == old(Value())
    {
      if env.newId.Fail? {
        return env.newId;
      }
      var newId := env.newId.value;
      match job.jobType {
        case File =>
          if job.extra == "" {
            return Fail(InvalidParameter);
          }
          if !env.writeOk {
            return Fail(WriteError);
          }
        case Plugin =>
          if LookupName(job.extra) !in modules {
            return Fail(InvalidPluginName);
          }
        case _ =>
      }
      if !env.marshalOk || job.jobType == Unknown {
        return Fail(MarshalError);
      }
      if !env.putOk {
        return Fail(StoreError);
      }
      dbTask := dbTask[KeyOf(newId) := job];
      SecondsAreTicks(job.interval);
      var index, circle := tw.Add(newId, job.interval * W.NANOS_PER_SECOND);
      return Ok(newId);
    }

    method DeleteTask(uuid: ItemID, deleteOk: bool) returns (r: Answer<bool>)
      requires Valid()
      modifies this, tw, tw.slots
      ensures Valid() && tw.items == old(tw.items)
      ensures Value() == T.DeleteTask(old(Value()), uuid, deleteOk).0
      ensures r == T.DeleteTask(old(Value()), uuid, deleteOk).1
    {
      if !deleteOk {
        return Fail(StoreError);
      }
      W.DeleteSucceeds(tw.Abs(), Int64Of(uuid));
      dbTask := dbTask - {uuid};
      var isDelete := tw.Delete(Int64Of(uuid));
      return Ok(isDelete);
    }

    method CheckTask(uuid: ItemID) returns (r: Answer<bool>)
      requires Valid()
      ensures r == T.CheckTask(Value(), uuid)
    {
      if uuid !in dbTask {
        return Fail(NotFound);
      }
      var found := tw.Check(Int64Of(uuid));
      return Ok(found);
    }

    // GetTask answers with the stored job and the place of its item; (0, 0) once the task has fired.
    method GetTask(uuid: ItemID) returns (r: Answer<(Job, nat, int)>)
      requires Valid()
      ensures uuid !in dbTask ==> r == Fail(NotFound)
      ensures uuid in dbTask ==> r.Ok? && r.value.0 == dbTask[uuid]
      ensures uuid in dbTask && Int64Of(uuid) !in tw.Abs().live ==> (r.value.1, r.value.2) == (0, 0)
      ensures uuid in dbTask && Int64Of(uuid) in tw.Abs().live ==>
                && r.value.1 == tw.Abs().live[Int64Of(uuid)].slot < tw.maxSlot
                && W.Entry(Int64Of(uuid), r.value.2, tw.Abs().live[Int64Of(uuid)].stamp) in tw.Abs().slots[r.value.1]
    {
      if uuid !in dbTask {
        return Fail(NotFound);
      }
      var idx, circle := tw.Get(Int64Of(uuid));
      return Ok((dbTask[uuid], idx, circle));
    }

    method GetResult(uuid: ItemID) returns (r: Answer<Result>)
      requires Valid()
      ensures r == if uuid in dbResult then Ok(dbResult[uuid]) else Fail(NotFound)
    {
      if uuid !in dbResult {
        return Fail(NotFound);
      }
      return Ok(dbResult[uuid]);
    }

    // One tick of update: the triggered ids are handed to a goroutine that runs executeHandle later.
    method Tick() returns (jobs: seq<int>)
      requires Valid()
      modifies tw, tw.slots, tw.items
      ensures Valid() && tw.items == old(tw.items)
      ensures Value() == old(Value()).(wheel := W.Trigger(old(Value()).wheel).0)
      ensures jobs == W.Trigger(old(Value()).wheel).1
    {
      jobs := tw.Trigger();
    }

    method ExecuteJobs(tids: seq<Int64>, xs: seq<Exec>) returns (results: seq<Result>)
      requires Valid() && |tids| == |xs|
      modifies `dbResult
      ensures Valid()
      ensures Value() == T.ExecuteJobs(old(Value()), tids, xs).0
      ensures results == T.ExecuteJobs(old(Value()), tids, xs).1
      ensures |results| == |tids|
      ensures forall i :: 0 <= i < |tids| && (KeyOf(tids[i]) !in dbTask || !xs[i].unmarshalOk) ==>
                results[i] == Result(tids[i], xs[i].beginTime, xs[i].endTime, xs[i].errorMsg, "")
      ensures forall i :: 0 <= i < |tids| && KeyOf(tids[i]) in dbTask && xs[i].unmarshalOk ==>
                (dbTask[KeyOf(tids[i])].jobType == Cmd || dbTask[KeyOf(tids[i])].jobType == File ==>
                   && results[i].id == tids[i]
                   && results[i].errorMsg == xs[i].errorMsg && results[i].extra == xs[i].output
                   && results[i].beginTime == xs[i].beginTime && results[i].endTime == xs[i].endTime)
    {
      ghost var c := Value();
      results := seq(|tids|, _ => ZERO_RESULT);
      for idx := 0 to |tids|
        invariant |results| == |tids|
        invariant forall i :: 0 <= i < |tids| ==>
                    results[i] == if i < idx then ResultOf(c, tids[i], xs[i]) else ZERO_RESULT
        invariant dbResult == StoredUpTo(c, tids, xs, idx)
      {
        var tid, x := tids[idx], xs[idx];
        if KeyOf(tid) !in dbTask || !x.unmarshalOk {
          results := results[idx := Result(tid, x.beginTime, x.endTime, x.errorMsg, "")];
        } else {
          var job := dbTask[KeyOf(tid)];
          match job.jobType {
            case Cmd =>
              results := results[idx := Result(tid, x.beginTime, x.endTime, x.errorMsg, x.output)];
            case File =>
              results := results[idx := Result(tid, x.beginTime, x.endTime, x.errorMsg, x.output)];
            case Plugin =>
              if job.extra in modules {
                results := results[idx := Result(tid, x.beginTime, x.endTime, x.errorMsg, "")];
              }
            case Unknown =>
          }
          if x.putOk {
            dbResult := dbResult[KeyOf(tid) := results[idx]];
          }
        }
      }
    }
  }
}
