/** The staging pool (backend/app/services/storage.py): uploads admitted against two budgets, each later
    completing, failing or replacing a file. One function per step between two awaits of the event loop. */
module StagingSpec {
  import opened Prelude
  import opened Sums

  type Name = string
  type TaskId = string
  type UploadId = nat

  datatype TaskStatus = Running | Cancelling | Completed | Failed | Cancelled

  /** An entry of UPLOAD_TASKS. */
  datatype Task = Task(name: Name, status: TaskStatus, bytesDone: nat, bytesTotal: nat, cancelRequested: bool)

  /** The local variables of a running `store_upload`. */
  datatype Upload = Upload(name: Name, task: TaskId, overwrite: bool, available: nat, expected: nat, written: nat)

  datatype Limits = Limits(capacity: nat, maxUpload: nat, minFree: nat)

  /** `files` are the managed files by name, `recovery` the bytes below recovery/, `free` what the file system
      has left; an upload's fragment is on disk but is no managed file. */
  datatype Pool = Pool(files: map<Name, nat>, recovery: nat, free: int, tasks: map<TaskId, Task>,
                       uploads: map<UploadId, Upload>)

  datatype Outcome = Fine | Refused(code: nat)

  // ---------------------------------------------------------------- budgets

  predicate Holds(t: Task) {
    t.status in {Running, Cancelling}
  }

  function ActiveTasks(tasks: map<TaskId, Task>): set<TaskId> {
    set id | id in tasks && Holds(tasks[id])
  }

  function Totals(tasks: map<TaskId, Task>): (m: map<TaskId, nat>)
    ensures m.Keys == tasks.Keys
  {
    map id | id in tasks :: tasks[id].bytesTotal
  }

  /** What is still missing of the declared length. */
  function Left(t: Task): nat {
    if t.bytesTotal > t.bytesDone then t.bytesTotal - t.bytesDone else 0
  }

  function Lefts(tasks: map<TaskId, Task>): (m: map<TaskId, nat>)
    ensures m.Keys == tasks.Keys
  {
    map id | id in tasks :: Left(tasks[id])
  }

  /** `_active_upload_reservations`: bytes promised in the pool. */
  ghost function QuotaReserved(tasks: map<TaskId, Task>): nat {
    Sum(Totals(tasks), ActiveTasks(tasks))
  }

  /** `_active_upload_reservations`: bytes still to be written to disk. */
  ghost function PhysicalReserved(tasks: map<TaskId, Task>): nat {
    Sum(Lefts(tasks), ActiveTasks(tasks))
  }

  /** `_managed_bytes`, leaving out one file. */
  ghost function Managed(pool: Pool, exclude: set<Name>): nat {
    Sum(pool.files, pool.files.Keys - exclude) + pool.recovery
  }

  function Floor(n: int): nat {
    if n < 0 then 0 else n
  }

  function Least(a: nat, b: nat): nat {
    if a < b then a else b
  }

  ghost function Available(limits: Limits, pool: Pool, name: Name): nat {
    Least(Floor(limits.capacity - Managed(pool, {name}) - QuotaReserved(pool.tasks)),
          Floor(pool.free - limits.minFree - PhysicalReserved(pool.tasks)))
  }

  /** The free space that is reported to clients. */
  ghost function FreeBytes(limits: Limits, pool: Pool): nat {
    Least(Floor(limits.capacity - Managed(pool, {}) - QuotaReserved(pool.tasks)),
          Floor(pool.free - limits.minFree - PhysicalReserved(pool.tasks)))
  }

  // ---------------------------------------------------------------- the steps

  predicate Busy(tasks: map<TaskId, Task>, name: Name) {
    exists id | id in tasks :: tasks[id].name == name && Holds(tasks[id])
  }

  /** From the duplicate check to publishing the reservation: there is no await in between. `mounted` is the file
      the virtual medium holds, `length` the Content-Length. */
  ghost function Admit(limits: Limits, pool: Pool, u: UploadId, name: Name, id: TaskId, length: Option<nat>,
                       overwrite: bool, mounted: Option<Name>): (Pool, Outcome)
  {
    if Busy(pool.tasks, name) then (pool, Refused(409))
    else if overwrite && mounted == Some(name) then (pool, Refused(409))
    else if !overwrite && name in pool.files then (pool, Refused(409))
    else
      var available := Available(limits, pool, name);
      var expected := if length.Some? then length.value else 0;
      if length.Some? && expected > limits.maxUpload then (pool, Refused(413))
      else if length.Some? && expected > available then (pool, Refused(507))
      else
        (pool.(tasks := pool.tasks[id := Task(name, Running, 0, expected, false)],
               uploads := pool.uploads[u := Upload(name, id, overwrite, available, expected, 0)]), Fine)
  }

  function SetStatus(tasks: map<TaskId, Task>, id: TaskId, status: TaskStatus): map<TaskId, Task> {
    if id in tasks then tasks[id := tasks[id].(status := status)] else tasks
  }

  /** The upload ends without a file: its fragment is deleted. */
  function Abort(pool: Pool, u: UploadId, status: TaskStatus): Pool
    requires u in pool.uploads
  {
    pool.(tasks := SetStatus(pool.tasks, pool.uploads[u].task, status),
          uploads := pool.uploads - {u},
          free := pool.free + pool.uploads[u].written)
  }

  predicate CancelAsked(tasks: map<TaskId, Task>, id: TaskId) {
    id in tasks && tasks[id].cancelRequested
  }

  /** One turn of the chunk loop. */
  function Receive(limits: Limits, pool: Pool, u: UploadId, n: nat): (Pool, Outcome)
    requires u in pool.uploads
  {
    var up := pool.uploads[u];
    var written := up.written + n;
    if CancelAsked(pool.tasks, up.task) then (Abort(pool, u, Cancelled), Refused(409))
    else if written > limits.maxUpload then (Abort(pool, u, Failed), Refused(413))
    else if written > up.available then (Abort(pool, u, Failed), Refused(507))
    else
      (pool.(uploads := pool.uploads[u := up.(written := written)],
             tasks := if up.task in pool.tasks then pool.tasks[up.task := pool.tasks[up.task].(bytesDone := written)]
                      else pool.tasks,
             free := pool.free - n), Fine)
  }

  function SizeOf(files: map<Name, nat>, name: Name): nat {
    if name in files then files[name] else 0
  }

  /** The fragment becomes the file; a replaced file gives its space back. */
  function Publish(pool: Pool, u: UploadId): Pool
    requires u in pool.uploads
  {
    var up := pool.uploads[u];
    pool.(files := pool.files[up.name := up.written],
          free := pool.free + SizeOf(pool.files, up.name),
          uploads := pool.uploads - {u},
          tasks := if up.task in pool.tasks
                   then pool.tasks[up.task := pool.tasks[up.task].(status := Completed, bytesDone := up.written)]
                   else pool.tasks)
  }

  /** The end of the stream: replace or link the target. */
  function Finish(pool: Pool, u: UploadId, mounted: Option<Name>): (Pool, Outcome)
    requires u in pool.uploads
  {
    var up := pool.uploads[u];
    if up.written == 0 then (Abort(pool, u, Failed), Refused(400))
    else if up.overwrite && mounted == Some(up.name) then (Abort(pool, u, Cancelled), Refused(409))
    else if !up.overwrite && up.name in pool.files then (Abort(pool, u, Cancelled), Refused(409))
    else (Publish(pool, u), Fine)
  }

  /** The connection breaks. */
  function Interrupt(pool: Pool, u: UploadId): Pool
    requires u in pool.uploads
  {
    Abort(pool, u, if CancelAsked(pool.tasks, pool.uploads[u].task) then Cancelled else Failed)
  }

  /** `cancel_upload_task` only asks; the upload notices at its next chunk. */
  function Cancel(pool: Pool, id: TaskId): (Pool, Outcome) {
    if id !in pool.tasks then (pool, Refused(404))
    else if pool.tasks[id].status == Running then
      (pool.(tasks := pool.tasks[id := pool.tasks[id].(cancelRequested := true, status := Cancelling)]), Fine)
    else (pool, Fine)
  }

  function Delete(pool: Pool, name: Name, mounted: Option<Name>): (Pool, Outcome) {
    if name !in pool.files then (pool, Refused(404))
    else if mounted == Some(name) then (pool, Refused(409))
    else (pool.(files := pool.files - {name}, free := pool.free + pool.files[name]), Fine)
  }

  datatype Step =
    | Admitting(upload: UploadId, name: Name, task: TaskId, length: Option<nat>, overwrite: bool, mounted: Option<Name>)
    | Receiving(upload: UploadId, n: nat)
    | Finishing(upload: UploadId, mounted: Option<Name>)
    | Interrupting(upload: UploadId)
    | AskCancel(task: TaskId)
    | Deleting(name: Name, mounted: Option<Name>)

  /** Steps of uploads that are not running do nothing. */
  ghost function Next(limits: Limits, pool: Pool, step: Step): Pool {
    match step
    case Admitting(u, name, id, length, overwrite, mounted) =>
      if u in pool.uploads then pool else Admit(limits, pool, u, name, id, length, overwrite, mounted).0
    case Receiving(u, n) => if u in pool.uploads then Receive(limits, pool, u, n).0 else pool
    case Finishing(u, mounted) => if u in pool.uploads then Finish(pool, u, mounted).0 else pool
    case Interrupting(u) => if u in pool.uploads then Interrupt(pool, u) else pool
    case AskCancel(id) => Cancel(pool, id).0
    case Deleting(name, mounted) => Delete(pool, name, mounted).0
  }
}
