/** Why admission must not reuse the id of an active task: the reservation it overwrites is forgotten. */
module StagingReuse {
  import opened Prelude
  import opened Sums
  import opened StagingSpec
  import opened StagingQuota

  const LIMITS := Limits(10, 10, 0)

  /** Three uploads of 8, 2 and 8 bytes; the second brings the task id of the first. */
  function Uploads(t: TaskId, x: TaskId): seq<Step> {
    [Admitting(0, "a", t, Some(8), true, None), Admitting(1, "b", t, Some(2), true, None),
     Admitting(2, "c", x, Some(8), true, None),
     Receiving(0, 8), Receiving(1, 2), Receiving(2, 8),
     Finishing(0, None), Finishing(1, None), Finishing(2, None)]
  }

  function Empty(): Pool {
    Pool(map[], 0, 100, map[], map[])
  }

  function First(t: TaskId): Pool {
    Empty().(tasks := map[t := Task("a", Running, 0, 8, false)], uploads := map[0 := Upload("a", t, true, 10, 8, 0)])
  }

  function Second(t: TaskId): Pool {
    Empty().(tasks := map[t := Task("b", Running, 0, 2, false)],
             uploads := First(t).uploads[1 := Upload("b", t, true, 2, 2, 0)])
  }

  function Third(t: TaskId, x: TaskId): Pool {
    Empty().(tasks := Second(t).tasks[x := Task("c", Running, 0, 8, false)],
             uploads := Second(t).uploads[2 := Upload("c", x, true, 8, 8, 0)])
  }

  lemma OneReservation(id: TaskId, task: Task)
    requires Holds(task)
    ensures ActiveTasks(map[id := task]) == {id}
    ensures QuotaReserved(map[id := task]) == task.bytesTotal && PhysicalReserved(map[id := task]) == Left(task)
  {
    assert ActiveTasks(map[id := task]) == {id};
    SumTake(Totals(map[id := task]), {id}, id);
    SumTake(Lefts(map[id := task]), {id}, id);
  }

  lemma FirstAdmission(t: TaskId, x: TaskId)
    ensures Next(LIMITS, Empty(), Uploads(t, x)[0]) == First(t)
  {
    assert Managed(Empty(), {"a"}) == 0;
    assert ActiveTasks(Empty().tasks) == {};
  }

  lemma SecondAdmission(t: TaskId, x: TaskId)
    ensures Next(LIMITS, First(t), Uploads(t, x)[1]) == Second(t)
  {
    OneReservation(t, First(t).tasks[t]);
    assert Managed(First(t), {"b"}) == 0;
    assert "a" != "b";
  }

  lemma ThirdAdmission(t: TaskId, x: TaskId)
    requires t != x
    ensures Next(LIMITS, Second(t), Uploads(t, x)[2]) == Third(t, x)
  {
    OneReservation(t, Second(t).tasks[t]);
    assert Managed(Second(t), {"c"}) == 0;
    assert "b" != "c";
  }

  lemma Stored(files: map<Name, nat>)
    requires files == map["a" := 8, "b" := 2, "c" := 8]
    ensures Sum(files, files.Keys) == 18
  {
    assert "a" != "b" && "b" != "c" && "a" != "c";
    SumTake(files, files.Keys, "a");
    SumTake(files, files.Keys - {"a"}, "b");
    SumTake(files, files.Keys - {"a"} - {"b"}, "c");
    assert files.Keys - {"a"} - {"b"} - {"c"} == {};
  }

  function Written(t: TaskId, x: TaskId): Pool {
    var p := Receive(LIMITS, Third(t, x), 0, 8).0;
    var q := if 1 in p.uploads then Receive(LIMITS, p, 1, 2).0 else p;
    if 2 in q.uploads then Receive(LIMITS, q, 2, 8).0 else q
  }

  lemma Writes(t: TaskId, x: TaskId)
    requires t != x
    ensures var p := Next(LIMITS, Third(t, x), Uploads(t, x)[3]);
            Next(LIMITS, Next(LIMITS, p, Uploads(t, x)[4]), Uploads(t, x)[5]) == Written(t, x)
    ensures Written(t, x).files == map[] && Written(t, x).uploads.Keys == {0, 1, 2}
    ensures Written(t, x).uploads[0] == Upload("a", t, true, 10, 8, 8)
    ensures Written(t, x).uploads[1] == Upload("b", t, true, 2, 2, 2)
    ensures Written(t, x).uploads[2] == Upload("c", x, true, 8, 8, 8)
  {
  }

  lemma Finishes(t: TaskId, x: TaskId, p: Pool)
    requires t != x
    requires p.files == map[] && p.recovery == 0 && p.uploads.Keys == {0, 1, 2}
    requires p.uploads[0] == Upload("a", t, true, 10, 8, 8)
    requires p.uploads[1] == Upload("b", t, true, 2, 2, 2)
    requires p.uploads[2] == Upload("c", x, true, 8, 8, 8)
    ensures Next(LIMITS, Next(LIMITS, Next(LIMITS, p, Uploads(t, x)[6]), Uploads(t, x)[7]), Uploads(t, x)[8]).files
         == map["a" := 8, "b" := 2, "c" := 8]
    ensures Next(LIMITS, Next(LIMITS, Next(LIMITS, p, Uploads(t, x)[6]), Uploads(t, x)[7]), Uploads(t, x)[8]).recovery == 0
  {
    var q := Finish(p, 0, None).0;
    assert q.uploads.Keys == {1, 2};
    var r := Finish(q, 1, None).0;
    assert r.uploads.Keys == {2};
  }

  lemma Admissions(t: TaskId, x: TaskId)
    requires t != x
    ensures PoolAt(LIMITS, Empty(), Uploads(t, x), 3) == Third(t, x)
  {
    FirstAdmission(t, x);
    SecondAdmission(t, x);
    ThirdAdmission(t, x);
    var run := Uploads(t, x);
    hide Next, First, Second, Third, Uploads;
    assert PoolAt(LIMITS, Empty(), run, 1) == First(t);
    assert PoolAt(LIMITS, Empty(), run, 2) == Second(t);
  }

  lemma AllWritten(t: TaskId, x: TaskId)
    requires t != x
    ensures PoolAt(LIMITS, Empty(), Uploads(t, x), 6) == Written(t, x)
  {
    Writes(t, x);
    var run := Uploads(t, x);
    hide Next, Third, Written, Uploads;
    Admissions(t, x);
    assert PoolAt(LIMITS, Empty(), run, 4) == Next(LIMITS, Third(t, x), run[3]);
    assert PoolAt(LIMITS, Empty(), run, 5) == Next(LIMITS, PoolAt(LIMITS, Empty(), run, 4), run[4]);
  }

  lemma AllFinished(t: TaskId, x: TaskId)
    requires t != x
    ensures var last := PoolAt(LIMITS, Empty(), Uploads(t, x), 9);
            last.files == map["a" := 8, "b" := 2, "c" := 8] && last.recovery == 0
  {
    Writes(t, x);
    Finishes(t, x, Written(t, x));
    var run := Uploads(t, x);
    hide Next, Written, Uploads;
    AllWritten(t, x);
    assert PoolAt(LIMITS, Empty(), run, 7) == Next(LIMITS, Written(t, x), run[6]);
    assert PoolAt(LIMITS, Empty(), run, 8) == Next(LIMITS, PoolAt(LIMITS, Empty(), run, 7), run[7]);
  }

  /** Every declared length is kept and every single admission fits, yet 18 bytes end up in a pool of 10, whatever the
      two task ids are. */
  lemma ReuseOverflows(t: TaskId, x: TaskId)
    requires t != x
    ensures Quiet(LIMITS, Empty())
    ensures Managed(PoolAt(LIMITS, Empty(), Uploads(t, x), 9), {}) == 18 > LIMITS.capacity
  {
    assert ActiveTasks(Empty().tasks) == {};
    hide Uploads, PoolAt;
    AllFinished(t, x);
    var last := PoolAt(LIMITS, Empty(), Uploads(t, x), 9);
    Stored(last.files);
    assert last.files.Keys - {} == last.files.Keys;
  }
}
