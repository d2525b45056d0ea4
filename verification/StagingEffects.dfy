/** Exactly when uploads, deletions and cancellations succeed, what they leave, and that no byte of the disk is lost. */
module StagingEffects {
  import opened Prelude
  import opened Sums
  import opened StagingSpec
  import opened StagingQuota

  // ---------------------------------------------------------------- the disk

  function Fragments(uploads: map<UploadId, Upload>): (m: map<UploadId, nat>)
    ensures m.Keys == uploads.Keys
  {
    map u | u in uploads :: uploads[u].written
  }

  /** Free bytes, the managed files, and the fragments of running uploads. */
  ghost function DiskBytes(pool: Pool): int {
    pool.free + Sum(pool.files, pool.files.Keys) + Sum(Fragments(pool.uploads), pool.uploads.Keys)
  }

  lemma FragmentGone(uploads: map<UploadId, Upload>, u: UploadId)
    requires u in uploads
    ensures Sum(Fragments(uploads), uploads.Keys)
         == uploads[u].written + Sum(Fragments(uploads - {u}), (uploads - {u}).Keys)
  {
    SumTake(Fragments(uploads), uploads.Keys, u);
    assert (uploads - {u}).Keys == uploads.Keys - {u};
    SumSame(Fragments(uploads), Fragments(uploads - {u}), uploads.Keys - {u});
  }

  lemma FragmentSet(uploads: map<UploadId, Upload>, u: UploadId, up: Upload)
    ensures Sum(Fragments(uploads[u := up]), uploads[u := up].Keys)
         == up.written + Sum(Fragments(uploads - {u}), (uploads - {u}).Keys)
  {
    FragmentGone(uploads[u := up], u);
    assert uploads[u := up] - {u} == uploads - {u};
  }

  lemma FileGone(files: map<Name, nat>, name: Name)
    ensures Sum(files, files.Keys) == SizeOf(files, name) + Sum(files - {name}, (files - {name}).Keys)
  {
    assert (files - {name}).Keys == files.Keys - {name};
    SumSame(files, files - {name}, files.Keys - {name});
    if name in files {
      SumTake(files, files.Keys, name);
    } else {
      assert files.Keys - {name} == files.Keys;
    }
  }

  lemma FileSet(files: map<Name, nat>, name: Name, size: nat)
    ensures Sum(files[name := size], files[name := size].Keys) == size + Sum(files - {name}, (files - {name}).Keys)
  {
    FileGone(files[name := size], name);
    assert files[name := size] - {name} == files - {name};
  }

  lemma AbortConserves(pool: Pool, u: UploadId, status: TaskStatus)
    requires u in pool.uploads
    ensures DiskBytes(Abort(pool, u, status)) == DiskBytes(pool)
  {
    FragmentGone(pool.uploads, u);
    hide Sum, Fragments, SetStatus;
  }

  lemma PublishConserves(pool: Pool, u: UploadId)
    requires u in pool.uploads
    ensures DiskBytes(Publish(pool, u)) == DiskBytes(pool)
  {
    var up := pool.uploads[u];
    FragmentGone(pool.uploads, u);
    FileGone(pool.files, up.name);
    FileSet(pool.files, up.name, up.written);
    hide Sum, Fragments, SizeOf;
  }

  lemma ReceiveConserves(limits: Limits, pool: Pool, u: UploadId, n: nat)
    requires u in pool.uploads
    ensures DiskBytes(Receive(limits, pool, u, n).0) == DiskBytes(pool)
  {
    var up := pool.uploads[u];
    FragmentGone(pool.uploads, u);
    FragmentSet(pool.uploads, u, up.(written := up.written + n));
    AbortConserves(pool, u, Cancelled);
    AbortConserves(pool, u, Failed);
    hide Sum, Fragments, Abort, CancelAsked;
  }

  lemma AdmitConserves(limits: Limits, pool: Pool, u: UploadId, name: Name, id: TaskId, length: Option<nat>,
                       overwrite: bool, mounted: Option<Name>)
    requires u !in pool.uploads
    ensures DiskBytes(Admit(limits, pool, u, name, id, length, overwrite, mounted).0) == DiskBytes(pool)
  {
    var expected := if length.Some? then length.value else 0;
    FragmentSet(pool.uploads, u, Upload(name, id, overwrite, Available(limits, pool, name), expected, 0));
    assert pool.uploads - {u} == pool.uploads;
    hide Sum, Fragments, Available, Busy;
  }

  lemma DeleteConserves(pool: Pool, name: Name, mounted: Option<Name>)
    ensures DiskBytes(Delete(pool, name, mounted).0) == DiskBytes(pool)
  {
    FileGone(pool.files, name);
    hide Sum, Fragments;
  }

  /** No step loses or gains a byte: what a fragment or a replaced or deleted file occupied becomes free. */
  lemma StepConserves(limits: Limits, pool: Pool, step: Step)
    ensures DiskBytes(Next(limits, pool, step)) == DiskBytes(pool)
  {
    hide DiskBytes, Admit, Receive, Abort, Publish, Delete;
    match step
    case Admitting(u, name, id, length, overwrite, mounted) =>
      if u !in pool.uploads {
        AdmitConserves(limits, pool, u, name, id, length, overwrite, mounted);
      }
    case Receiving(u, n) =>
      if u in pool.uploads {
        ReceiveConserves(limits, pool, u, n);
      }
    case Finishing(u, mounted) =>
      if u in pool.uploads {
        AbortConserves(pool, u, Failed);
        AbortConserves(pool, u, Cancelled);
        PublishConserves(pool, u);
      }
    case Interrupting(u) =>
      if u in pool.uploads {
        AbortConserves(pool, u, Failed);
        AbortConserves(pool, u, Cancelled);
      }
    case AskCancel(id) => CancelConserves(pool, id);
    case Deleting(name, mounted) => DeleteConserves(pool, name, mounted);
  }

  lemma CancelConserves(pool: Pool, id: TaskId)
    ensures DiskBytes(Cancel(pool, id).0) == DiskBytes(pool)
  {
    hide Sum, Fragments;
  }

  /** Over every run free bytes, files and fragments add up to the same. */
  lemma {:induction false} DiskConserved(limits: Limits, pool: Pool, run: seq<Step>, n: nat)
    requires n <= |run|
    ensures DiskBytes(PoolAt(limits, pool, run, n)) == DiskBytes(pool)
  {
    hide DiskBytes, Next;
    if n > 0 {
      DiskConserved(limits, pool, run, n - 1);
      StepConserves(limits, PoolAt(limits, pool, run, n - 1), run[n - 1]);
    }
  }

  // ---------------------------------------------------------------- admission

  /** So many bytes more fit beside the files but those of `exclude`, and beside all promises, in the pool and on disk. */
  ghost predicate Affordable(limits: Limits, pool: Pool, exclude: set<Name>, bytes: nat) {
    bytes > 0 ==>
      && Managed(pool, exclude) + QuotaReserved(pool.tasks) + bytes <= limits.capacity
      && limits.minFree + PhysicalReserved(pool.tasks) + bytes <= pool.free
  }

  /** The free space that is reported is the most that fits. */
  lemma ReportedExactly(limits: Limits, pool: Pool, bytes: nat)
    ensures bytes <= FreeBytes(limits, pool) <==> Affordable(limits, pool, {}, bytes)
  {
    hide Sum, Managed, QuotaReserved, PhysicalReserved;
  }

  /** What an upload may deliver at most, whatever it declares, is what fits at its admission. */
  lemma AllowanceExactly(limits: Limits, pool: Pool, u: UploadId, name: Name, id: TaskId, length: Option<nat>,
                         overwrite: bool, mounted: Option<Name>, bytes: nat)
    requires Admit(limits, pool, u, name, id, length, overwrite, mounted).1 == Fine
    ensures var after := Admit(limits, pool, u, name, id, length, overwrite, mounted).0;
            bytes <= after.uploads[u].available <==> Affordable(limits, pool, {name}, bytes)
  {
    hide Sum, Managed, QuotaReserved, PhysicalReserved, Busy;
  }

  /** An upload is admitted exactly if nobody uploads that name, its target may be written, and, if it declares a length,
      that is within the limit and fits beside files and promises both in the pool and on the disk. */
  lemma AdmittedExactly(limits: Limits, pool: Pool, u: UploadId, name: Name, id: TaskId, length: Option<nat>,
                        overwrite: bool, mounted: Option<Name>)
    ensures var (after, outcome) := Admit(limits, pool, u, name, id, length, overwrite, mounted);
            && (outcome == Fine <==>
                 && (forall t | t in pool.tasks && pool.tasks[t].name == name :: pool.tasks[t].status !in {Running, Cancelling})
                 && (if overwrite then mounted != Some(name) else name !in pool.files)
                 && (length.Some? ==> length.value <= limits.maxUpload && Affordable(limits, pool, {name}, length.value)))
            && (outcome != Fine ==> after == pool)
            && (outcome == Fine ==>
                 && after.files == pool.files && after.free == pool.free && after.recovery == pool.recovery
                 && after.uploads - {u} == pool.uploads - {u} && after.tasks - {id} == pool.tasks - {id}
                 && id in after.tasks && after.tasks[id].name == name && after.tasks[id].status == Running
                 && after.tasks[id].bytesTotal == (if length.Some? then length.value else 0)
                 && after.tasks[id].bytesDone == 0 && !after.tasks[id].cancelRequested
                 && u in after.uploads && after.uploads[u].name == name && after.uploads[u].task == id
                 && after.uploads[u].overwrite == overwrite && after.uploads[u].written == 0)
  {
    hide Sum, Managed, QuotaReserved, PhysicalReserved;
  }

  // ---------------------------------------------------------------- the chunks

  /** The upload is over without a file: its fragment is gone and its space free again. */
  ghost predicate EndedWithout(pool: Pool, after: Pool, u: UploadId, status: TaskStatus)
    requires u in pool.uploads
  {
    && after.files == pool.files && after.recovery == pool.recovery && after.uploads == pool.uploads - {u}
    && after.free == pool.free + pool.uploads[u].written
    && var id := pool.uploads[u].task;
       && after.tasks.Keys == pool.tasks.Keys && after.tasks - {id} == pool.tasks - {id}
       && (id in pool.tasks ==> after.tasks[id].status == status)
  }

  /** A chunk is taken exactly if nobody asked for the upload's end and it stays within the limit and within what was free
      at its admission; otherwise the upload ends. */
  lemma ReceivedExactly(limits: Limits, pool: Pool, u: UploadId, n: nat)
    requires u in pool.uploads
    ensures var (after, outcome) := Receive(limits, pool, u, n);
            var up, id := pool.uploads[u], pool.uploads[u].task;
            var asked := id in pool.tasks && pool.tasks[id].cancelRequested;
            && (outcome == Fine <==> !asked && up.written + n <= limits.maxUpload && up.written + n <= up.available)
            && (outcome != Fine ==> EndedWithout(pool, after, u, if asked then Cancelled else Failed))
            && (outcome == Fine ==>
                 && after.files == pool.files && after.free == pool.free - n && after.recovery == pool.recovery
                 && after.uploads == pool.uploads[u := after.uploads[u]]
                 && after.uploads[u] == Upload(up.name, id, up.overwrite, up.available, up.expected, up.written + n)
                 && after.tasks.Keys == pool.tasks.Keys && after.tasks - {id} == pool.tasks - {id}
                 && (id in pool.tasks ==> after.tasks[id].bytesDone == up.written + n
                                          && after.tasks[id].status == pool.tasks[id].status))
  {
  }

  /** An upload becomes a file exactly if something arrived and the target may still be written. */
  lemma FinishedExactly(pool: Pool, u: UploadId, mounted: Option<Name>)
    requires u in pool.uploads
    ensures var (after, outcome) := Finish(pool, u, mounted);
            var up, id := pool.uploads[u], pool.uploads[u].task;
            && (outcome == Fine <==>
                 up.written > 0 && if up.overwrite then mounted != Some(up.name) else up.name !in pool.files)
            && (outcome != Fine ==> EndedWithout(pool, after, u, if up.written == 0 then Failed else Cancelled))
            && (outcome == Fine ==>
                 && up.name in after.files && after.files[up.name] == up.written
                 && after.files - {up.name} == pool.files - {up.name} && after.uploads == pool.uploads - {u}
                 && after.recovery == pool.recovery
                 && after.tasks.Keys == pool.tasks.Keys && after.tasks - {id} == pool.tasks - {id}
                 && (id in pool.tasks ==> after.tasks[id].status == Completed && after.tasks[id].bytesDone == up.written))
  {
  }

  lemma InterruptedExactly(pool: Pool, u: UploadId)
    requires u in pool.uploads
    ensures var id := pool.uploads[u].task;
            EndedWithout(pool, Interrupt(pool, u), u,
                         if id in pool.tasks && pool.tasks[id].cancelRequested then Cancelled else Failed)
  {
  }

  /** A file is deleted exactly if it is there and not in use; then it is gone, and nothing else is. */
  lemma DeletedExactly(pool: Pool, name: Name, mounted: Option<Name>)
    ensures var (after, outcome) := Delete(pool, name, mounted);
            && (outcome == Fine <==> name in pool.files && mounted != Some(name))
            && (outcome != Fine ==> after == pool)
            && (outcome == Fine ==>
                 && after.files == pool.files - {name} && after.tasks == pool.tasks && after.uploads == pool.uploads
                 && after.recovery == pool.recovery)
  {
  }

  // ---------------------------------------------------------------- files hold what arrived

  /** The bytes that arrive for upload `u` in the steps from `m` up to `n`. */
  function Arrived(run: seq<Step>, u: UploadId, m: nat, n: nat): nat
    requires m <= n <= |run|
    decreases n
  {
    if m == n then 0
    else
      var step := run[n - 1];
      Arrived(run, u, m, n - 1) + if step.Receiving? && step.upload == u then step.n else 0
  }

  lemma StepOfUpload(limits: Limits, pool: Pool, step: Step, u: UploadId)
    requires u in pool.uploads && u in Next(limits, pool, step).uploads
    ensures var up, next := pool.uploads[u], Next(limits, pool, step).uploads[u];
            && next.name == up.name && next.overwrite == up.overwrite && next.task == up.task
            && next.written == up.written + if step.Receiving? && step.upload == u then step.n else 0
  {
    hide Available, Busy, CancelAsked;
  }

  lemma AdmittedUpload(limits: Limits, pool: Pool, step: Step, u: UploadId)
    requires step.Admitting? && step.upload == u && u !in pool.uploads && u in Next(limits, pool, step).uploads
    ensures Next(limits, pool, step).uploads[u].written == 0 && Next(limits, pool, step).uploads[u].name == step.name
  {
    hide Admit, Affordable;
    AdmittedExactly(limits, pool, u, step.name, step.task, step.length, step.overwrite, step.mounted);
  }

  lemma {:induction false} WrittenIsArrived(limits: Limits, pool: Pool, run: seq<Step>, m: nat, n: nat, u: UploadId)
    requires m < n <= |run| && run[m].Admitting? && run[m].upload == u && u !in PoolAt(limits, pool, run, m).uploads
    requires forall k | m < k <= n :: u in PoolAt(limits, pool, run, k).uploads
    ensures var up := PoolAt(limits, pool, run, n).uploads[u];
            up.written == Arrived(run, u, m + 1, n) && up.name == run[m].name
    decreases n
  {
    hide Next;
    var before := PoolAt(limits, pool, run, n - 1);
    assert PoolAt(limits, pool, run, n) == Next(limits, before, run[n - 1]);
    if n == m + 1 {
      AdmittedUpload(limits, before, run[m], u);
    } else {
      WrittenIsArrived(limits, pool, run, m, n - 1, u);
      StepOfUpload(limits, before, run[n - 1], u);
    }
  }

  /** A finished upload leaves a file of exactly the bytes that arrived for it. */
  lemma FileIsWhatArrived(limits: Limits, pool: Pool, run: seq<Step>, m: nat, n: nat, u: UploadId)
    requires m < n < |run| && run[m].Admitting? && run[m].upload == u && u !in PoolAt(limits, pool, run, m).uploads
    requires forall k | m < k <= n :: u in PoolAt(limits, pool, run, k).uploads
    requires run[n].Finishing? && run[n].upload == u
    requires Finish(PoolAt(limits, pool, run, n), u, run[n].mounted).1 == Fine
    ensures var after := PoolAt(limits, pool, run, n + 1);
            run[m].name in after.files && after.files[run[m].name] == Arrived(run, u, m + 1, n) > 0
  {
    var before := PoolAt(limits, pool, run, n);
    assert PoolAt(limits, pool, run, n + 1) == Next(limits, before, run[n]);
    WrittenIsArrived(limits, pool, run, m, n, u);
    FinishedExactly(before, u, run[n].mounted);
    hide Finish, PoolAt;
  }

  // ---------------------------------------------------------------- cancellation

  lemma AskedExactly(pool: Pool, id: TaskId)
    ensures var (after, outcome) := Cancel(pool, id);
            && (outcome == Fine <==> id in pool.tasks)
            && after.files == pool.files && after.uploads == pool.uploads && after.free == pool.free
            && after.tasks.Keys == pool.tasks.Keys && after.tasks - {id} == pool.tasks - {id}
            && (id in pool.tasks && pool.tasks[id].status == Running ==>
                 after.tasks[id].cancelRequested && after.tasks[id].status == Cancelling)
            && (id in pool.tasks && pool.tasks[id].status != Running ==> after == pool)
  {
  }

  lemma StepAsked(limits: Limits, pool: Pool, step: Step, id: TaskId)
    requires id in pool.tasks && pool.tasks[id].cancelRequested
    requires step.Admitting? ==> step.task != id
    ensures id in Next(limits, pool, step).tasks && Next(limits, pool, step).tasks[id].cancelRequested
  {
    hide Available, Busy;
  }

  lemma {:induction false} StaysAsked(limits: Limits, pool: Pool, run: seq<Step>, m: nat, n: nat, id: TaskId)
    requires m <= n <= |run|
    requires id in PoolAt(limits, pool, run, m).tasks && PoolAt(limits, pool, run, m).tasks[id].cancelRequested
    requires forall k | m <= k < n && run[k].Admitting? :: run[k].task != id
    ensures id in PoolAt(limits, pool, run, n).tasks && PoolAt(limits, pool, run, n).tasks[id].cancelRequested
    decreases n
  {
    hide Next;
    if m < n {
      StaysAsked(limits, pool, run, m, n - 1, id);
      StepAsked(limits, PoolAt(limits, pool, run, n - 1), run[n - 1], id);
    }
  }

  /** Once the end of a running task was asked for, its upload takes no further chunk, unless the id is given out anew. */
  lemma CancelTakesEffect(limits: Limits, pool: Pool, run: seq<Step>, m: nat, n: nat, id: TaskId, u: UploadId)
    requires m < n < |run| && run[m] == AskCancel(id) && id in PoolAt(limits, pool, run, m).tasks
    requires PoolAt(limits, pool, run, m).tasks[id].status == Running
    requires forall k | m < k < n && run[k].Admitting? :: run[k].task != id
    requires run[n].Receiving? && run[n].upload == u && u in PoolAt(limits, pool, run, n).uploads
    requires PoolAt(limits, pool, run, n).uploads[u].task == id
    ensures EndedWithout(PoolAt(limits, pool, run, n), PoolAt(limits, pool, run, n + 1), u, Cancelled)
  {
    var asked, before := PoolAt(limits, pool, run, m), PoolAt(limits, pool, run, n);
    assert PoolAt(limits, pool, run, m + 1) == Next(limits, asked, run[m]);
    assert PoolAt(limits, pool, run, n + 1) == Next(limits, before, run[n]);
    AskedExactly(asked, id);
    hide Cancel, EndedWithout, Receive;
    StaysAsked(limits, pool, run, m + 1, n, id);
    ReceivedExactly(limits, before, u, run[n].n);
  }
}
