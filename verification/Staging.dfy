/** The staging store as the server runs it: the task table and the files change in place, and each method is one
    stretch of `store_upload` between two awaits. */
module Staging {
  import opened Prelude
  import opened Sums
  import opened StagingSpec

  ghost function ActiveAmong(tasks: map<TaskId, Task>, rows: seq<TaskId>): set<TaskId> {
    set id | id in rows && id in tasks && Holds(tasks[id])
  }

  lemma ActiveStep(tasks: map<TaskId, Task>, rows: seq<TaskId>, n: nat)
    requires n < |rows| && Lists(rows, tasks.Keys)
    ensures ActiveAmong(tasks, rows[..n]) <= tasks.Keys && ActiveAmong(tasks, rows[..n + 1]) <= tasks.Keys
    ensures rows[n] !in ActiveAmong(tasks, rows[..n])
    ensures ActiveAmong(tasks, rows[..n + 1])
         == ActiveAmong(tasks, rows[..n]) + if Holds(tasks[rows[n]]) then {rows[n]} else {}
  {
    assert rows[..n + 1] == rows[..n] + [rows[n]];
  }

  lemma SumStep(tasks: map<TaskId, Task>, m: map<TaskId, nat>, rows: seq<TaskId>, n: nat)
    requires n < |rows| && Lists(rows, tasks.Keys) && m.Keys == tasks.Keys
    ensures ActiveAmong(tasks, rows[..n]) <= tasks.Keys && ActiveAmong(tasks, rows[..n + 1]) <= tasks.Keys
    ensures Sum(m, ActiveAmong(tasks, rows[..n + 1]))
         == Sum(m, ActiveAmong(tasks, rows[..n])) + if Holds(tasks[rows[n]]) then m[rows[n]] else 0
  {
    ActiveStep(tasks, rows, n);
    hide ActiveAmong;
    if Holds(tasks[rows[n]]) {
      SumAdd(m, ActiveAmong(tasks, rows[..n]), rows[n]);
    } else {
      assert ActiveAmong(tasks, rows[..n + 1]) == ActiveAmong(tasks, rows[..n]);
    }
  }

  ghost function Elements<T>(rows: seq<T>): set<T> {
    set x | x in rows
  }

  lemma FilesStep(files: map<Name, nat>, rows: seq<Name>, exclude: set<Name>, n: nat)
    requires n < |rows| && Lists(rows, files.Keys)
    ensures Elements(rows[..n]) <= files.Keys && Elements(rows[..n + 1]) <= files.Keys
    ensures Sum(files, Elements(rows[..n + 1]) - exclude)
         == Sum(files, Elements(rows[..n]) - exclude) + if rows[n] in exclude then 0 else files[rows[n]]
  {
    assert rows[..n + 1] == rows[..n] + [rows[n]];
    assert Elements(rows[..n + 1]) == Elements(rows[..n]) + {rows[n]};
    if rows[n] in exclude {
      assert Elements(rows[..n + 1]) - exclude == Elements(rows[..n]) - exclude;
    } else {
      assert Elements(rows[..n + 1]) - exclude == Elements(rows[..n]) - exclude + {rows[n]};
      SumAdd(files, Elements(rows[..n]) - exclude, rows[n]);
    }
  }

  class StagingStore {
    const limits: Limits
    var files: map<Name, nat>
    var recovery: nat
    var free: int
    var tasks: map<TaskId, Task>
    var uploads: map<UploadId, Upload>

    constructor (limits: Limits, files: map<Name, nat>, recovery: nat, free: int)
      ensures State() == Pool(files, recovery, free, map[], map[]) && this.limits == limits
    {
      this.limits, this.files, this.recovery, this.free := limits, files, recovery, free;
      tasks, uploads := map[], map[];
    }

    function State(): Pool
      reads this
    {
      Pool(files, recovery, free, tasks, uploads)
    }

    method DuplicateName(name: Name) returns (duplicate: bool)
      ensures duplicate == Busy(tasks, name)
    {
      duplicate := false;
      RowsExist(tasks.Keys);
      var rows: seq<TaskId> :| Lists(rows, tasks.Keys);
      for n := 0 to |rows|
        invariant duplicate <==> exists k | 0 <= k < n :: tasks[rows[k]].name == name && Holds(tasks[rows[k]])
      {
        if tasks[rows[n]].name == name && Holds(tasks[rows[n]]) {
          duplicate := true;
        }
      }
    }

    /** One pass over the task table gives both reservations. */
    method ActiveUploadReservations() returns (quota: nat, physical: nat)
      ensures quota == QuotaReserved(tasks) && physical == PhysicalReserved(tasks)
    {
      quota, physical := 0, 0;
      RowsExist(tasks.Keys);
      var rows: seq<TaskId> :| Lists(rows, tasks.Keys);
      for n := 0 to |rows|
        invariant ActiveAmong(tasks, rows[..n]) <= tasks.Keys
        invariant quota == Sum(Totals(tasks), ActiveAmong(tasks, rows[..n]))
        invariant physical == Sum(Lefts(tasks), ActiveAmong(tasks, rows[..n]))
      {
        SumStep(tasks, Totals(tasks), rows, n);
        SumStep(tasks, Lefts(tasks), rows, n);
        var task := tasks[rows[n]];
        if Holds(task) {
          quota, physical := quota + task.bytesTotal, physical + Left(task);
        }
      }
      assert rows[..|rows|] == rows;
      assert ActiveAmong(tasks, rows) == ActiveTasks(tasks);
    }

    method ManagedBytes(exclude: set<Name>) returns (total: nat)
      ensures total == Managed(State(), exclude)
    {
      total := 0;
      RowsExist(files.Keys);
      var rows: seq<Name> :| Lists(rows, files.Keys);
      for n := 0 to |rows|
        invariant Elements(rows[..n]) <= files.Keys
        invariant total == Sum(files, Elements(rows[..n]) - exclude)
      {
        FilesStep(files, rows, exclude, n);
        if rows[n] !in exclude {
          total := total + files[rows[n]];
        }
      }
      assert rows[..|rows|] == rows;
      assert Elements(rows) == files.Keys;
      total := total + recovery;
    }

    method StagingInfo() returns (freeBytes: nat, used: nat)
      ensures freeBytes == FreeBytes(limits, State()) && used == Managed(State(), {})
    {
      used := ManagedBytes({});
      var quota, physical := ActiveUploadReservations();
      freeBytes := Least(Floor(limits.capacity - used - quota), Floor(free - limits.minFree - physical));
    }

    method Admit(u: UploadId, name: Name, id: TaskId, length: Option<nat>, overwrite: bool, mounted: Option<Name>)
      returns (outcome: Outcome)
      modifies this`tasks, this`uploads
      ensures (State(), outcome) == StagingSpec.Admit(limits, old(State()), u, name, id, length, overwrite, mounted)
    {
      var duplicate := DuplicateName(name);
      if duplicate {
        return Refused(409);
      }
      if overwrite && mounted == Some(name) {
        return Refused(409);
      }
      if !overwrite && name in files {
        return Refused(409);
      }
      var quota, physical := ActiveUploadReservations();
      var managed := ManagedBytes({name});
      var available := Least(Floor(limits.capacity - managed - quota), Floor(free - limits.minFree - physical));
      var expected := 0;
      if length.Some? {
        expected := length.value;
        if expected > limits.maxUpload {
          return Refused(413);
        }
        if expected > available {
          return Refused(507);
        }
      }
      tasks := tasks[id := Task(name, Running, 0, expected, false)];
      uploads := uploads[u := Upload(name, id, overwrite, available, expected, 0)];
      outcome := Fine;
    }

    method UpdateTask(id: TaskId, status: TaskStatus)
      modifies this`tasks
      ensures tasks == SetStatus(old(tasks), id, status)
    {
      if id in tasks {
        tasks := tasks[id := tasks[id].(status := status)];
      }
    }

    /** The error handlers and the `finally` clause. */
    method Abort(u: UploadId, status: TaskStatus)
      requires u in uploads
      modifies this`tasks, this`uploads, this`free
      ensures State() == StagingSpec.Abort(old(State()), u, status)
    {
      UpdateTask(uploads[u].task, status);
      free := free + uploads[u].written;
      uploads := uploads - {u};
    }

    method Receive(u: UploadId, n: nat) returns (outcome: Outcome)
      requires u in uploads
      modifies this`tasks, this`uploads, this`free
      ensures (State(), outcome) == StagingSpec.Receive(limits, old(State()), u, n)
    {
      var up := uploads[u];
      if CancelAsked(tasks, up.task) {
        Abort(u, Cancelled);
        return Refused(409);
      }
      var written := up.written + n;
      if written > limits.maxUpload {
        Abort(u, Failed);
        return Refused(413);
      }
      if written > up.available {
        Abort(u, Failed);
        return Refused(507);
      }
      free := free - n;
      uploads := uploads[u := up.(written := written)];
      if up.task in tasks {
        tasks := tasks[up.task := tasks[up.task].(bytesDone := written)];
      }
      outcome := Fine;
    }

    method Finish(u: UploadId, mounted: Option<Name>) returns (outcome: Outcome)
      requires u in uploads
      modifies this`files, this`tasks, this`uploads, this`free
      ensures (State(), outcome) == StagingSpec.Finish(old(State()), u, mounted)
    {
      var up := uploads[u];
      if up.written == 0 {
        Abort(u, Failed);
        return Refused(400);
      }
      if up.overwrite {
        if mounted == Some(up.name) {
          Abort(u, Cancelled);
          return Refused(409);
        }
        free := free + SizeOf(files, up.name);
      } else if up.name in files {
        Abort(u, Cancelled);
        return Refused(409);
      }
      files := files[up.name := up.written];
      uploads := uploads - {u};
      if up.task in tasks {
        tasks := tasks[up.task := tasks[up.task].(status := Completed, bytesDone := up.written)];
      }
      outcome := Fine;
    }

    method Interrupt(u: UploadId)
      requires u in uploads
      modifies this`tasks, this`uploads, this`free
      ensures State() == StagingSpec.Interrupt(old(State()), u)
    {
      if CancelAsked(tasks, uploads[u].task) {
        Abort(u, Cancelled);
      } else {
        Abort(u, Failed);
      }
    }

    method CancelUploadTask(id: TaskId) returns (outcome: Outcome)
      modifies this`tasks
      ensures (State(), outcome) == Cancel(old(State()), id)
    {
      if id !in tasks {
        return Refused(404);
      }
      if tasks[id].status == Running {
        tasks := tasks[id := tasks[id].(cancelRequested := true, status := Cancelling)];
      }
      outcome := Fine;
    }

    method DeleteStagedFile(name: Name, mounted: Option<Name>) returns (outcome: Outcome)
      modifies this`files, this`free
      ensures (State(), outcome) == Delete(old(State()), name, mounted)
    {
      if name !in files {
        return Refused(404);
      }
      if mounted == Some(name) {
        return Refused(409);
      }
      free := free + files[name];
      files := files - {name};
      outcome := Fine;
    }
  }
}
