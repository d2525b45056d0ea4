/** No interleaving of uploads, failures, overwrites and deletions exceeds the pool. */
module StagingQuota {
  import opened Prelude
  import opened Sums
  import opened StagingSpec

  function Expected(uploads: map<UploadId, Upload>): (m: map<UploadId, nat>)
    ensures m.Keys == uploads.Keys
  {
    map u | u in uploads :: uploads[u].expected
  }

  function Outstanding(uploads: map<UploadId, Upload>): (m: map<UploadId, nat>)
    ensures m.Keys == uploads.Keys
  {
    map u | u in uploads :: Floor(uploads[u].expected - uploads[u].written)
  }

  function NamesOf(uploads: map<UploadId, Upload>, s: set<UploadId>): set<Name>
    requires s <= uploads.Keys
  {
    set u | u in s :: uploads[u].name
  }

  // ---------------------------------------------------------------- the invariant

  /** Every running upload has an active task entry, entry and name are its own, and every active entry belongs
      to a running upload. */
  ghost predicate Tracked(tasks: map<TaskId, Task>, uploads: map<UploadId, Upload>) {
    && (forall u | u in uploads :: uploads[u].task in tasks && Matches(tasks[uploads[u].task], uploads[u]))
    && (forall u, v | u in uploads && v in uploads && uploads[u].task == uploads[v].task :: u == v)
    && (forall u, v | u in uploads && v in uploads && uploads[u].name == uploads[v].name :: u == v)
    && (forall id | id in tasks && Holds(tasks[id]) :: HasUpload(uploads, id))
  }

  ghost predicate Matches(t: Task, up: Upload) {
    Holds(t) && t.name == up.name && t.bytesTotal == up.expected && t.bytesDone == up.written
  }

  ghost predicate HasUpload(uploads: map<UploadId, Upload>, id: TaskId) {
    exists u :: u in uploads && uploads[u].task == id
  }

  /** If exactly the uploads in `s` completed now, the pool would still hold everything. */
  ghost predicate Fits(limits: Limits, files: map<Name, nat>, recovery: nat, uploads: map<UploadId, Upload>,
                       s: set<UploadId>)
    requires s <= uploads.Keys
  {
    Sum(files, files.Keys - NamesOf(uploads, s)) + recovery + Sum(Expected(uploads), s) <= limits.capacity
  }

  ghost predicate EverySubsetFits(limits: Limits, files: map<Name, nat>, recovery: nat, uploads: map<UploadId, Upload>) {
    forall s | s <= uploads.Keys :: Fits(limits, files, recovery, uploads, s)
  }

  ghost function Pending(uploads: map<UploadId, Upload>): nat {
    Sum(Outstanding(uploads), uploads.Keys)
  }

  /** The disk can take what the running uploads still have to write. */
  ghost predicate DiskFits(limits: Limits, free: int, uploads: map<UploadId, Upload>) {
    free >= limits.minFree + Pending(uploads)
  }

  ghost predicate Bounded(uploads: map<UploadId, Upload>) {
    forall u | u in uploads :: uploads[u].written <= uploads[u].expected
  }

  ghost predicate Inv(limits: Limits, pool: Pool) {
    && Tracked(pool.tasks, pool.uploads)
    && EverySubsetFits(limits, pool.files, pool.recovery, pool.uploads)
    && DiskFits(limits, pool.free, pool.uploads)
    && Bounded(pool.uploads)
  }

  /** What is asked of the environment: uploads declare their length and deliver at most that, and a new upload
      does not bring the id of a task that is still active. */
  ghost predicate Framed(pool: Pool, step: Step) {
    match step
    case Admitting(_, _, id, length, _, _) => length.Some? && id !in ActiveTasks(pool.tasks)
    case Receiving(u, n) => u in pool.uploads ==> pool.uploads[u].written + n <= pool.uploads[u].expected
    case _ => true
  }

  // ---------------------------------------------------------------- the reservations

  lemma ActiveIds(tasks: map<TaskId, Task>, uploads: map<UploadId, Upload>)
    requires Tracked(tasks, uploads)
    ensures ActiveTasks(tasks) == set u | u in uploads.Keys :: uploads[u].task
  {
    forall id | id in ActiveTasks(tasks)
      ensures id in set u | u in uploads.Keys :: uploads[u].task
    {
      assert HasUpload(uploads, id);
    }
  }

  ghost function TaskOf(uploads: map<UploadId, Upload>): (f: map<UploadId, TaskId>)
    ensures f.Keys == uploads.Keys
  {
    map u | u in uploads :: uploads[u].task
  }

  lemma EntryOf(tasks: map<TaskId, Task>, uploads: map<UploadId, Upload>, u: UploadId)
    requires Tracked(tasks, uploads) && u in uploads
    ensures TaskOf(uploads)[u] in ActiveTasks(tasks)
    ensures Expected(uploads)[u] == Totals(tasks)[TaskOf(uploads)[u]]
    ensures Outstanding(uploads)[u] == Lefts(tasks)[TaskOf(uploads)[u]]
  {
    assert Matches(tasks[uploads[u].task], uploads[u]);
  }

  lemma OwnEntry(tasks: map<TaskId, Task>, uploads: map<UploadId, Upload>)
    requires Tracked(tasks, uploads)
    ensures ActiveTasks(tasks) == set u | u in uploads.Keys :: TaskOf(uploads)[u]
    ensures forall u, v | u in uploads && v in uploads && TaskOf(uploads)[u] == TaskOf(uploads)[v] :: u == v
  {
    ActiveIds(tasks, uploads);
  }

  /** The task table reserves exactly what the running uploads may still turn into files. */
  lemma QuotaReservation(tasks: map<TaskId, Task>, uploads: map<UploadId, Upload>)
    requires Tracked(tasks, uploads)
    ensures QuotaReserved(tasks) == Sum(Expected(uploads), uploads.Keys)
  {
    OwnEntry(tasks, uploads);
    forall u | u in uploads.Keys
      ensures TaskOf(uploads)[u] in ActiveTasks(tasks)
      ensures Expected(uploads)[u] == Totals(tasks)[TaskOf(uploads)[u]]
    {
      EntryOf(tasks, uploads, u);
    }
    hide Tracked, ActiveTasks, TaskOf, Expected, Totals;
    SumRename(Expected(uploads), Totals(tasks), uploads.Keys, ActiveTasks(tasks), TaskOf(uploads));
  }

  /** And it sets aside on the disk exactly what they still have to write. */
  lemma DiskReservation(tasks: map<TaskId, Task>, uploads: map<UploadId, Upload>)
    requires Tracked(tasks, uploads)
    ensures PhysicalReserved(tasks) == Pending(uploads)
  {
    OwnEntry(tasks, uploads);
    forall u | u in uploads.Keys
      ensures TaskOf(uploads)[u] in ActiveTasks(tasks)
      ensures Outstanding(uploads)[u] == Lefts(tasks)[TaskOf(uploads)[u]]
    {
      EntryOf(tasks, uploads, u);
    }
    hide Tracked, ActiveTasks, TaskOf, Outstanding, Lefts;
    SumRename(Outstanding(uploads), Lefts(tasks), uploads.Keys, ActiveTasks(tasks), TaskOf(uploads));
  }

  // ---------------------------------------------------------------- admission

  /** The subsets without the new upload. */
  lemma AdmitWithout(limits: Limits, pool: Pool, u: UploadId, up: Upload, s: set<UploadId>)
    requires u !in pool.uploads && s <= pool.uploads.Keys
    requires Fits(limits, pool.files, pool.recovery, pool.uploads, s)
    ensures Fits(limits, pool.files, pool.recovery, pool.uploads[u := up], s)
    ensures NamesOf(pool.uploads[u := up], s) == NamesOf(pool.uploads, s)
    ensures Sum(Expected(pool.uploads[u := up]), s) == Sum(Expected(pool.uploads), s)
  {
    SumSame(Expected(pool.uploads), Expected(pool.uploads[u := up]), s);
    assert NamesOf(pool.uploads[u := up], s) == NamesOf(pool.uploads, s);
  }

  /** The subsets with the new upload. */
  lemma AdmitWith(limits: Limits, pool: Pool, u: UploadId, up: Upload, s: set<UploadId>)
    requires u !in pool.uploads && s <= pool.uploads.Keys
    requires Fits(limits, pool.files, pool.recovery, pool.uploads, s)
    requires QuotaReserved(pool.tasks) == Sum(Expected(pool.uploads), pool.uploads.Keys)
    requires up.expected <= Available(limits, pool, up.name)
    ensures Fits(limits, pool.files, pool.recovery, pool.uploads[u := up], s + {u})
  {
    var uploads' := pool.uploads[u := up];
    AdmitWithout(limits, pool, u, up, s);
    SumAdd(Expected(uploads'), s, u);
    assert NamesOf(uploads', s + {u}) == NamesOf(pool.uploads, s) + {up.name};
    var rest := pool.files.Keys - (NamesOf(pool.uploads, s) + {up.name});
    SumMono(pool.files, rest, pool.files.Keys - NamesOf(pool.uploads, s));
    SumMono(pool.files, rest, pool.files.Keys - {up.name});
    SumMono(Expected(pool.uploads), s, pool.uploads.Keys);
  }

  lemma AdmitFits(limits: Limits, pool: Pool, u: UploadId, up: Upload)
    requires Tracked(pool.tasks, pool.uploads) && u !in pool.uploads
    requires EverySubsetFits(limits, pool.files, pool.recovery, pool.uploads)
    requires up.expected <= Available(limits, pool, up.name)
    ensures EverySubsetFits(limits, pool.files, pool.recovery, pool.uploads[u := up])
  {
    hide Tracked, Fits, Available;
    QuotaReservation(pool.tasks, pool.uploads);
    var uploads' := pool.uploads[u := up];
    forall s | s <= uploads'.Keys
      ensures Fits(limits, pool.files, pool.recovery, uploads', s)
    {
      var s0 := s - {u};
      assert Fits(limits, pool.files, pool.recovery, pool.uploads, s0);
      if u in s {
        AdmitWith(limits, pool, u, up, s0);
        assert s == s0 + {u};
      } else {
        AdmitWithout(limits, pool, u, up, s0);
        assert s == s0;
      }
    }
  }

  lemma PendingAdd(uploads: map<UploadId, Upload>, u: UploadId, up: Upload)
    requires u !in uploads
    ensures Pending(uploads[u := up]) == Pending(uploads) + Floor(up.expected - up.written)
  {
    assert uploads[u := up].Keys == uploads.Keys + {u};
    SumAdd(Outstanding(uploads[u := up]), uploads.Keys, u);
    SumSame(Outstanding(uploads), Outstanding(uploads[u := up]), uploads.Keys);
  }

  lemma HasUploadAdd(uploads: map<UploadId, Upload>, u: UploadId, up: Upload, id: TaskId)
    requires HasUpload(uploads, id) && (u in uploads ==> uploads[u].task == up.task)
    ensures HasUpload(uploads[u := up], id)
  {
    var v :| v in uploads && uploads[v].task == id;
    assert v in uploads[u := up] && uploads[u := up][v].task == id;
  }

  lemma AdmitTracked(tasks: map<TaskId, Task>, uploads: map<UploadId, Upload>, u: UploadId, up: Upload)
    requires Tracked(tasks, uploads) && u !in uploads && !Busy(tasks, up.name) && up.written == 0
    requires up.task !in ActiveTasks(tasks)
    ensures Tracked(tasks[up.task := Task(up.name, Running, 0, up.expected, false)], uploads[u := up])
  {
    var tasks' := tasks[up.task := Task(up.name, Running, 0, up.expected, false)];
    forall id | id in tasks' && Holds(tasks'[id])
      ensures HasUpload(uploads[u := up], id)
    {
      if id == up.task {
        assert uploads[u := up][u].task == id;
      } else {
        HasUploadAdd(uploads, u, up, id);
      }
    }
    forall v | v in uploads
      ensures uploads[v].task != up.task && uploads[v].name != up.name
    {
      assert Matches(tasks[uploads[v].task], uploads[v]);
    }
  }

  lemma ReuseUntracks(tasks: map<TaskId, Task>, uploads: map<UploadId, Upload>, u: UploadId, up: Upload)
    requires Tracked(tasks, uploads) && u !in uploads && up.task in ActiveTasks(tasks)
    ensures !Tracked(tasks[up.task := Task(up.name, Running, 0, up.expected, false)], uploads[u := up])
  {
    assert HasUpload(uploads, up.task);
    var v :| v in uploads && uploads[v].task == up.task;
    assert v in uploads[u := up] && uploads[u := up][v].task == uploads[u := up][u].task;
  }

  /** An admitted upload keeps the books in order exactly when its task id was not in use by an active task. */
  lemma AdmitKeepsBooks(limits: Limits, pool: Pool, u: UploadId, name: Name, id: TaskId, length: Option<nat>,
                        overwrite: bool, mounted: Option<Name>)
    requires Tracked(pool.tasks, pool.uploads) && u !in pool.uploads
    requires Admit(limits, pool, u, name, id, length, overwrite, mounted).1 == Fine
    ensures var after := Admit(limits, pool, u, name, id, length, overwrite, mounted).0;
            Tracked(after.tasks, after.uploads) <==> id !in ActiveTasks(pool.tasks)
  {
    hide Tracked, Available, Busy;
    var expected := if length.Some? then length.value else 0;
    var up := Upload(name, id, overwrite, Available(limits, pool, name), expected, 0);
    if id in ActiveTasks(pool.tasks) {
      ReuseUntracks(pool.tasks, pool.uploads, u, up);
    } else {
      AdmitTracked(pool.tasks, pool.uploads, u, up);
    }
  }

  /** What the entry under `id` holds of a table of reserved bytes. */
  function Share(m: map<TaskId, nat>, tasks: map<TaskId, Task>, id: TaskId): nat
    requires m.Keys == tasks.Keys
  {
    if id in tasks && Holds(tasks[id]) then m[id] else 0
  }

  /** A new active entry under `id` replaces what was reserved there. */
  lemma Overwrites(tasks: map<TaskId, Task>, id: TaskId, t: Task, m: map<TaskId, nat>, m': map<TaskId, nat>)
    requires Holds(t) && m.Keys == tasks.Keys && m'.Keys == tasks.Keys + {id}
    requires forall x | x in tasks && x != id :: m'[x] == m[x]
    ensures ActiveTasks(tasks) <= m.Keys && ActiveTasks(tasks[id := t]) <= m'.Keys
    ensures Sum(m', ActiveTasks(tasks[id := t])) + Share(m, tasks, id) == Sum(m, ActiveTasks(tasks)) + m'[id]
  {
    var rest := ActiveTasks(tasks) - {id};
    assert ActiveTasks(tasks[id := t]) == rest + {id};
    SumSame(m, m', rest);
    SumAdd(m', rest, id);
    if id in ActiveTasks(tasks) {
      SumTake(m, ActiveTasks(tasks), id);
    } else {
      assert rest == ActiveTasks(tasks);
    }
  }

  lemma ExpectedAdd(uploads: map<UploadId, Upload>, u: UploadId, up: Upload)
    requires u !in uploads
    ensures Sum(Expected(uploads[u := up]), uploads[u := up].Keys) == Sum(Expected(uploads), uploads.Keys) + up.expected
  {
    assert uploads[u := up].Keys == uploads.Keys + {u};
    SumAdd(Expected(uploads[u := up]), uploads.Keys, u);
    SumSame(Expected(uploads), Expected(uploads[u := up]), uploads.Keys);
  }

  /** After an admission the table reserves as much as the running uploads may still turn into files exactly when the
      id was not in use by an active task with a declared length; otherwise that task's bytes are no longer reserved. */
  lemma AdmitReserves(limits: Limits, pool: Pool, u: UploadId, name: Name, id: TaskId, length: Option<nat>,
                      overwrite: bool, mounted: Option<Name>)
    requires Tracked(pool.tasks, pool.uploads) && u !in pool.uploads
    requires Admit(limits, pool, u, name, id, length, overwrite, mounted).1 == Fine
    ensures var after := Admit(limits, pool, u, name, id, length, overwrite, mounted).0;
            var lost := if id in ActiveTasks(pool.tasks) then pool.tasks[id].bytesTotal else 0;
            && QuotaReserved(after.tasks) + lost == Sum(Expected(after.uploads), after.uploads.Keys)
            && (QuotaReserved(after.tasks) >= Sum(Expected(after.uploads), after.uploads.Keys)
                <==> (id in ActiveTasks(pool.tasks) ==> pool.tasks[id].bytesTotal == 0))
  {
    hide Tracked, Available, Busy, Sum;
    var expected := if length.Some? then length.value else 0;
    var task := Task(name, Running, 0, expected, false);
    QuotaReservation(pool.tasks, pool.uploads);
    Overwrites(pool.tasks, id, task, Totals(pool.tasks), Totals(pool.tasks[id := task]));
    ExpectedAdd(pool.uploads, u, Upload(name, id, overwrite, Available(limits, pool, name), expected, 0));
  }

  /** The disk's reservation covers what the running uploads still have to write exactly when the id was not in use by
      an active task that still had bytes to write. */
  lemma AdmitSetsAside(limits: Limits, pool: Pool, u: UploadId, name: Name, id: TaskId, length: Option<nat>,
                       overwrite: bool, mounted: Option<Name>)
    requires Tracked(pool.tasks, pool.uploads) && u !in pool.uploads
    requires Admit(limits, pool, u, name, id, length, overwrite, mounted).1 == Fine
    ensures var after := Admit(limits, pool, u, name, id, length, overwrite, mounted).0;
            var lost := if id in ActiveTasks(pool.tasks) then Left(pool.tasks[id]) else 0;
            && PhysicalReserved(after.tasks) + lost == Pending(after.uploads)
            && (PhysicalReserved(after.tasks) >= Pending(after.uploads)
                <==> (id in ActiveTasks(pool.tasks) ==> Left(pool.tasks[id]) == 0))
  {
    var expected := if length.Some? then length.value else 0;
    var task := Task(name, Running, 0, expected, false);
    Overwrites(pool.tasks, id, task, Lefts(pool.tasks), Lefts(pool.tasks[id := task]));
    DiskReservation(pool.tasks, pool.uploads);
    assert Lefts(pool.tasks[id := task])[id] == expected;
    assert id in pool.tasks ==> Lefts(pool.tasks)[id] == Left(pool.tasks[id]);
    hide Tracked, Available, Busy, Pending, Sum, Lefts;
    PendingAdd(pool.uploads, u, Upload(name, id, overwrite, Available(limits, pool, name), expected, 0));
  }

  lemma SharedEntry(tasks: map<TaskId, Task>, uploads: map<UploadId, Upload>, u: UploadId, up: Upload, v: UploadId,
                    done: Task)
    requires Tracked(tasks, uploads) && u !in uploads && v in uploads && uploads[v].task == up.task && !Holds(done)
    ensures QuotaReserved(tasks[up.task := done]) + up.expected
         == Sum(Expected(uploads[u := up] - {v}), (uploads[u := up] - {v}).Keys)
  {
    HasTask(tasks, uploads, v);
    QuotaReservation(tasks, uploads);
    ExpectedAdd(uploads, u, up);
    ExpectedTake(uploads[u := up], v);
    Deactivates(tasks, up.task, done);
    hide Tracked, Sum, Expected, QuotaReserved;
  }

  /** Two uploads that share an entry are worse off still: when the first one ends without a file, the new one has
      nothing reserved at all. */
  lemma SharedEntryEnds(limits: Limits, pool: Pool, u: UploadId, name: Name, id: TaskId, length: Option<nat>,
                        overwrite: bool, mounted: Option<Name>, v: UploadId, status: TaskStatus)
    requires Tracked(pool.tasks, pool.uploads) && u !in pool.uploads
    requires Admit(limits, pool, u, name, id, length, overwrite, mounted).1 == Fine
    requires v in pool.uploads && pool.uploads[v].task == id && status in {Failed, Cancelled}
    ensures var after := Admit(limits, pool, u, name, id, length, overwrite, mounted).0;
            var ended := Abort(after, v, status);
            QuotaReserved(ended.tasks) + after.uploads[u].expected == Sum(Expected(ended.uploads), ended.uploads.Keys)
  {
    var expected := if length.Some? then length.value else 0;
    var up := Upload(name, id, overwrite, Available(limits, pool, name), expected, 0);
    var running, done := Task(name, Running, 0, expected, false), Task(name, status, 0, expected, false);
    hide Tracked, Available, Busy, Sum, Expected, QuotaReserved;
    SharedEntry(pool.tasks, pool.uploads, u, up, v, done);
    assert pool.tasks[id := running][id := done] == pool.tasks[id := done];
  }

  lemma ExpectedTake(uploads: map<UploadId, Upload>, v: UploadId)
    requires v in uploads
    ensures Sum(Expected(uploads), uploads.Keys)
         == uploads[v].expected + Sum(Expected(uploads - {v}), (uploads - {v}).Keys)
  {
    SumTake(Expected(uploads), uploads.Keys, v);
    assert (uploads - {v}).Keys == uploads.Keys - {v};
    SumSame(Expected(uploads), Expected(uploads - {v}), uploads.Keys - {v});
  }

  lemma Deactivates(tasks: map<TaskId, Task>, id: TaskId, t: Task)
    requires id in ActiveTasks(tasks) && !Holds(t)
    ensures QuotaReserved(tasks[id := t]) + tasks[id].bytesTotal == QuotaReserved(tasks)
  {
    var rest := ActiveTasks(tasks) - {id};
    assert ActiveTasks(tasks[id := t]) == rest;
    SumTake(Totals(tasks), ActiveTasks(tasks), id);
    SumSame(Totals(tasks), Totals(tasks[id := t]), rest);
  }

  lemma AdmitKeeps(limits: Limits, pool: Pool, u: UploadId, name: Name, id: TaskId, length: nat, overwrite: bool,
                   mounted: Option<Name>)
    requires Inv(limits, pool) && u !in pool.uploads && id !in ActiveTasks(pool.tasks)
    ensures Inv(limits, Admit(limits, pool, u, name, id, Some(length), overwrite, mounted).0)
  {
    hide Tracked, EverySubsetFits, Busy, Pending;
    if Admit(limits, pool, u, name, id, Some(length), overwrite, mounted).1 == Fine {
      var up := Upload(name, id, overwrite, Available(limits, pool, name), length, 0);
      AdmitTracked(pool.tasks, pool.uploads, u, up);
      AdmitFits(limits, pool, u, up);
      PendingAdd(pool.uploads, u, up);
      DiskReservation(pool.tasks, pool.uploads);
    }
  }

  // ---------------------------------------------------------------- the other steps

  /** Taking one upload out of the running set. */
  lemma FewerFits(limits: Limits, files: map<Name, nat>, recovery: nat, uploads: map<UploadId, Upload>, u: UploadId)
    requires EverySubsetFits(limits, files, recovery, uploads) && u in uploads
    ensures EverySubsetFits(limits, files, recovery, uploads - {u})
  {
    forall s | s <= (uploads - {u}).Keys
      ensures Fits(limits, files, recovery, uploads - {u}, s)
    {
      assert Fits(limits, files, recovery, uploads, s);
      assert NamesOf(uploads - {u}, s) == NamesOf(uploads, s);
      SumSame(Expected(uploads), Expected(uploads - {u}), s);
    }
  }

  lemma PendingTake(uploads: map<UploadId, Upload>, u: UploadId)
    requires u in uploads
    ensures Pending(uploads) == Floor(uploads[u].expected - uploads[u].written) + Pending(uploads - {u})
  {
    SumTake(Outstanding(uploads), uploads.Keys, u);
    assert (uploads - {u}).Keys == uploads.Keys - {u};
    SumSame(Outstanding(uploads), Outstanding(uploads - {u}), uploads.Keys - {u});
  }

  /** An upload leaves together with the activity of its task entry. */
  lemma LeaveTracked(tasks: map<TaskId, Task>, uploads: map<UploadId, Upload>, u: UploadId, task: Task)
    requires Tracked(tasks, uploads) && u in uploads && !Holds(task)
    ensures Tracked(tasks[uploads[u].task := task], uploads - {u})
  {
    var tasks' := tasks[uploads[u].task := task];
    forall id | id in tasks' && Holds(tasks'[id])
      ensures HasUpload(uploads - {u}, id)
    {
      assert HasUpload(uploads, id);
      var v :| v in uploads && uploads[v].task == id;
      assert v in uploads - {u} && (uploads - {u})[v].task == id;
    }
  }

  lemma HasTask(tasks: map<TaskId, Task>, uploads: map<UploadId, Upload>, u: UploadId)
    requires Tracked(tasks, uploads) && u in uploads
    ensures uploads[u].task in tasks && Matches(tasks[uploads[u].task], uploads[u])
  {
  }

  lemma AbortKeeps(limits: Limits, pool: Pool, u: UploadId, status: TaskStatus)
    requires Inv(limits, pool) && u in pool.uploads && status in {Failed, Cancelled}
    ensures Inv(limits, Abort(pool, u, status))
  {
    hide Tracked, EverySubsetFits, Pending;
    HasTask(pool.tasks, pool.uploads, u);
    LeaveTracked(pool.tasks, pool.uploads, u, pool.tasks[pool.uploads[u].task].(status := status));
    FewerFits(limits, pool.files, pool.recovery, pool.uploads, u);
    PendingTake(pool.uploads, u);
  }

  lemma ReceiveFits(limits: Limits, pool: Pool, u: UploadId, n: nat)
    requires EverySubsetFits(limits, pool.files, pool.recovery, pool.uploads) && u in pool.uploads
    ensures EverySubsetFits(limits, pool.files, pool.recovery,
                            pool.uploads[u := pool.uploads[u].(written := pool.uploads[u].written + n)])
  {
    var uploads' := pool.uploads[u := pool.uploads[u].(written := pool.uploads[u].written + n)];
    forall s | s <= uploads'.Keys
      ensures Fits(limits, pool.files, pool.recovery, uploads', s)
    {
      assert Fits(limits, pool.files, pool.recovery, pool.uploads, s);
      assert NamesOf(uploads', s) == NamesOf(pool.uploads, s);
      SumSame(Expected(pool.uploads), Expected(uploads'), s);
    }
  }

  lemma ReceiveTracked(tasks: map<TaskId, Task>, uploads: map<UploadId, Upload>, u: UploadId, up: Upload)
    requires Tracked(tasks, uploads) && u in uploads && up == uploads[u].(written := up.written)
    ensures Tracked(tasks[up.task := tasks[up.task].(bytesDone := up.written)], uploads[u := up])
  {
    var tasks' := tasks[up.task := tasks[up.task].(bytesDone := up.written)];
    forall id | id in tasks' && Holds(tasks'[id])
      ensures HasUpload(uploads[u := up], id)
    {
      HasUploadAdd(uploads, u, up, id);
    }
  }

  lemma PendingWrite(uploads: map<UploadId, Upload>, u: UploadId, n: nat)
    requires u in uploads && uploads[u].written + n <= uploads[u].expected
    ensures Pending(uploads[u := uploads[u].(written := uploads[u].written + n)]) + n == Pending(uploads)
  {
    var uploads' := uploads[u := uploads[u].(written := uploads[u].written + n)];
    PendingTake(uploads, u);
    PendingTake(uploads', u);
    assert uploads' - {u} == uploads - {u};
  }

  lemma ReceiveKeeps(limits: Limits, pool: Pool, u: UploadId, n: nat)
    requires Inv(limits, pool) && u in pool.uploads && pool.uploads[u].written + n <= pool.uploads[u].expected
    ensures Inv(limits, Receive(limits, pool, u, n).0)
  {
    hide Tracked, EverySubsetFits, Pending, Abort;
    AbortKeeps(limits, pool, u, Cancelled);
    AbortKeeps(limits, pool, u, Failed);
    HasTask(pool.tasks, pool.uploads, u);
    ReceiveTracked(pool.tasks, pool.uploads, u, pool.uploads[u].(written := pool.uploads[u].written + n));
    ReceiveFits(limits, pool, u, n);
    PendingWrite(pool.uploads, u, n);
  }

  /** The new file takes the place of the reservation. */
  lemma PublishOne(limits: Limits, pool: Pool, u: UploadId, s: set<UploadId>)
    requires u in pool.uploads && s <= pool.uploads.Keys - {u}
    requires Fits(limits, pool.files, pool.recovery, pool.uploads, s + {u})
    requires pool.uploads[u].written <= pool.uploads[u].expected
    requires forall v | v in s :: pool.uploads[v].name != pool.uploads[u].name
    ensures Fits(limits, pool.files[pool.uploads[u].name := pool.uploads[u].written], pool.recovery, pool.uploads - {u}, s)
  {
    var up := pool.uploads[u];
    var files' := pool.files[up.name := up.written];
    var names := NamesOf(pool.uploads, s);
    assert NamesOf(pool.uploads - {u}, s) == names;
    SumSame(Expected(pool.uploads), Expected(pool.uploads - {u}), s);
    assert NamesOf(pool.uploads, s + {u}) == names + {up.name};
    SumAdd(Expected(pool.uploads), s, u);
    var rest := pool.files.Keys - (names + {up.name});
    SumTake(files', files'.Keys - names, up.name);
    assert files'.Keys - names - {up.name} == rest;
    SumSame(pool.files, files', rest);
  }

  lemma PublishFits(limits: Limits, pool: Pool, u: UploadId)
    requires Inv(limits, pool) && u in pool.uploads
    ensures EverySubsetFits(limits, pool.files[pool.uploads[u].name := pool.uploads[u].written], pool.recovery,
                            pool.uploads - {u})
  {
    hide Fits, Pending;
    forall s | s <= (pool.uploads - {u}).Keys
      ensures Fits(limits, pool.files[pool.uploads[u].name := pool.uploads[u].written], pool.recovery, pool.uploads - {u}, s)
    {
      assert Fits(limits, pool.files, pool.recovery, pool.uploads, s + {u});
      PublishOne(limits, pool, u, s);
    }
  }

  lemma PublishKeeps(limits: Limits, pool: Pool, u: UploadId)
    requires Inv(limits, pool) && u in pool.uploads
    ensures Inv(limits, Publish(pool, u))
  {
    hide Tracked, EverySubsetFits, Pending;
    var up := pool.uploads[u];
    HasTask(pool.tasks, pool.uploads, u);
    LeaveTracked(pool.tasks, pool.uploads, u, pool.tasks[up.task].(status := Completed, bytesDone := up.written));
    PublishFits(limits, pool, u);
    PendingTake(pool.uploads, u);
  }

  lemma FinishKeeps(limits: Limits, pool: Pool, u: UploadId, mounted: Option<Name>)
    requires Inv(limits, pool) && u in pool.uploads
    ensures Inv(limits, Finish(pool, u, mounted).0)
  {
    hide Inv, Abort, Publish;
    PublishKeeps(limits, pool, u);
    AbortKeeps(limits, pool, u, Failed);
    AbortKeeps(limits, pool, u, Cancelled);
  }

  lemma CancelTracked(tasks: map<TaskId, Task>, uploads: map<UploadId, Upload>, id: TaskId)
    requires Tracked(tasks, uploads) && id in tasks && Holds(tasks[id])
    ensures Tracked(tasks[id := tasks[id].(cancelRequested := true, status := Cancelling)], uploads)
  {
    var tasks' := tasks[id := tasks[id].(cancelRequested := true, status := Cancelling)];
    forall i | i in tasks' && Holds(tasks'[i])
      ensures HasUpload(uploads, i)
    {
    }
  }

  lemma CancelKeeps(limits: Limits, pool: Pool, id: TaskId)
    requires Inv(limits, pool)
    ensures Inv(limits, Cancel(pool, id).0)
  {
    hide Tracked, EverySubsetFits, Pending;
    if id in pool.tasks && pool.tasks[id].status == Running {
      CancelTracked(pool.tasks, pool.uploads, id);
    }
  }

  lemma DeleteFits(limits: Limits, pool: Pool, name: Name)
    requires EverySubsetFits(limits, pool.files, pool.recovery, pool.uploads)
    ensures EverySubsetFits(limits, pool.files - {name}, pool.recovery, pool.uploads)
  {
    var files' := pool.files - {name};
    forall s | s <= pool.uploads.Keys
      ensures Fits(limits, files', pool.recovery, pool.uploads, s)
    {
      assert Fits(limits, pool.files, pool.recovery, pool.uploads, s);
      var names := NamesOf(pool.uploads, s);
      SumSame(files', pool.files, files'.Keys - names);
      SumMono(pool.files, files'.Keys - names, pool.files.Keys - names);
    }
  }

  lemma DeleteKeeps(limits: Limits, pool: Pool, name: Name, mounted: Option<Name>)
    requires Inv(limits, pool)
    ensures Inv(limits, Delete(pool, name, mounted).0)
  {
    hide Tracked, EverySubsetFits, Pending;
    DeleteFits(limits, pool, name);
  }

  lemma StepKeeps(limits: Limits, pool: Pool, step: Step)
    requires Inv(limits, pool) && Framed(pool, step)
    ensures Inv(limits, Next(limits, pool, step))
  {
    hide Inv, Admit, Receive, Finish, Abort, Cancel, Delete;
    match step
    case Admitting(u, name, id, length, overwrite, mounted) =>
      if u !in pool.uploads {
        AdmitKeeps(limits, pool, u, name, id, length.value, overwrite, mounted);
      }
    case Receiving(u, n) =>
      if u in pool.uploads {
        ReceiveKeeps(limits, pool, u, n);
      }
    case Finishing(u, mounted) =>
      if u in pool.uploads {
        FinishKeeps(limits, pool, u, mounted);
      }
    case Interrupting(u) =>
      if u in pool.uploads {
        AbortKeeps(limits, pool, u, Cancelled);
        AbortKeeps(limits, pool, u, Failed);
      }
    case AskCancel(id) => CancelKeeps(limits, pool, id);
    case Deleting(name, mounted) => DeleteKeeps(limits, pool, name, mounted);
  }

  // ---------------------------------------------------------------- whole runs

  ghost function PoolAt(limits: Limits, pool: Pool, run: seq<Step>, n: nat): Pool
    requires n <= |run|
  {
    if n == 0 then pool else Next(limits, PoolAt(limits, pool, run, n - 1), run[n - 1])
  }

  /** A pool without uploads that respects both budgets. */
  ghost predicate Quiet(limits: Limits, pool: Pool) {
    && pool.uploads == map[] && ActiveTasks(pool.tasks) == {}
    && Managed(pool, {}) <= limits.capacity && pool.free >= limits.minFree
  }

  lemma QuietInv(limits: Limits, pool: Pool)
    requires Quiet(limits, pool)
    ensures Inv(limits, pool)
  {
    assert forall id | id in pool.tasks :: Holds(pool.tasks[id]) ==> id in ActiveTasks(pool.tasks);
    forall s | s <= pool.uploads.Keys
      ensures Fits(limits, pool.files, pool.recovery, pool.uploads, s)
    {
      assert s == {};
      assert NamesOf(pool.uploads, s) == {};
    }
  }

  lemma {:induction false} ReachableInv(limits: Limits, pool: Pool, run: seq<Step>, n: nat)
    requires Quiet(limits, pool) && n <= |run|
    requires forall k | 0 <= k < n :: Framed(PoolAt(limits, pool, run, k), run[k])
    ensures Inv(limits, PoolAt(limits, pool, run, n))
  {
    hide Inv, Next, Quiet, Framed;
    if n == 0 {
      QuietInv(limits, pool);
    } else {
      ReachableInv(limits, pool, run, n - 1);
      StepKeeps(limits, PoolAt(limits, pool, run, n - 1), run[n - 1]);
    }
  }

  /** In every run the files stay within the capacity and the disk keeps its reserve, and that remains so
      whichever of the running uploads complete. */
  lemma QuotaHolds(limits: Limits, pool: Pool, run: seq<Step>, n: nat, s: set<UploadId>)
    requires Quiet(limits, pool) && n <= |run|
    requires forall k | 0 <= k < n :: Framed(PoolAt(limits, pool, run, k), run[k])
    requires s <= PoolAt(limits, pool, run, n).uploads.Keys
    ensures var p := PoolAt(limits, pool, run, n);
            && Managed(p, {}) <= limits.capacity
            && Managed(p, NamesOf(p.uploads, s)) + Sum(Expected(p.uploads), s) <= limits.capacity
            && p.free >= limits.minFree
  {
    hide Next, Quiet, Framed, Tracked;
    ReachableInv(limits, pool, run, n);
    var p := PoolAt(limits, pool, run, n);
    assert Fits(limits, p.files, p.recovery, p.uploads, s);
    assert Fits(limits, p.files, p.recovery, p.uploads, {});
    assert NamesOf(p.uploads, {}) == {};
  }

  /** The space `staging_info` reports is really there for a new upload. */
  lemma ReportedSpaceIsAdmitted(limits: Limits, pool: Pool, u: UploadId, name: Name, id: TaskId, length: nat,
                                overwrite: bool, mounted: Option<Name>)
    requires length <= FreeBytes(limits, pool) && length <= limits.maxUpload
    requires !Busy(pool.tasks, name) && (if overwrite then mounted != Some(name) else name !in pool.files)
    ensures Admit(limits, pool, u, name, id, Some(length), overwrite, mounted).1 == Fine
  {
    SumMono(pool.files, pool.files.Keys - {name}, pool.files.Keys - {});
  }
}
