/** The sliding-window limit on logins (backend/app/security/auth.py): five a minute for each client, thirty in all.
    The clock is monotonic. */
module LoginLimiter {
  import opened Prelude

  type Client = string

  const WINDOW: nat := 60 * SECOND
  const PER_CLIENT: nat := 5
  const OVERALL: nat := 30

  datatype Limiter = Limiter(attempts: map<Client, seq<Time>>, all: seq<Time>)

  // ---------------------------------------------------------------- the queues

  predicate Recent(t: Time, now: Time) {
    now < t + WINDOW
  }

  /** Attempts leave the front of a queue a minute after they were made. */
  function Prune(queue: seq<Time>, now: Time): seq<Time> {
    if queue != [] && !Recent(queue[0], now) then Prune(queue[1..], now) else queue
  }

  /** Clients whose last attempt is long ago are forgotten. */
  function Forget(attempts: map<Client, seq<Time>>, now: Time): map<Client, seq<Time>> {
    map c | c in attempts && attempts[c] != [] && Recent(attempts[c][|attempts[c]| - 1], now) :: attempts[c]
  }

  function Queue(attempts: map<Client, seq<Time>>, c: Client): seq<Time> {
    if c in attempts then attempts[c] else []
  }

  /** One login attempt: the limiter afterwards, and whether the password is looked at. */
  function Attempt(l: Limiter, c: Client, now: Time): (Limiter, bool) {
    var mine := Prune(Queue(Forget(l.attempts, now), c), now);
    var all := Prune(l.all, now);
    if |mine| >= PER_CLIENT || |all| >= OVERALL then (Limiter(Forget(l.attempts, now)[c := mine], all), false)
    else (Limiter(Forget(l.attempts, now)[c := mine + [now]], all + [now]), true)
  }

  // ---------------------------------------------------------------- the rule without pruning

  /** An admitted attempt. */
  datatype Entry = Entry(client: Client, at: Time)

  function Times(log: seq<Entry>): seq<Time> {
    if log == [] then [] else Times(log[..|log| - 1]) + [log[|log| - 1].at]
  }

  function TimesOf(log: seq<Entry>, c: Client): seq<Time> {
    if log == [] then []
    else TimesOf(log[..|log| - 1], c) + if log[|log| - 1].client == c then [log[|log| - 1].at] else []
  }

  /** The recent ones among `ts`. */
  function Fresh(ts: seq<Time>, now: Time): seq<Time> {
    if ts == [] then []
    else (if Recent(ts[0], now) then [ts[0]] else []) + Fresh(ts[1..], now)
  }

  /** The rule: fewer than five admitted attempts of this client and fewer than thirty in all within the last minute. */
  predicate Allowed(log: seq<Entry>, c: Client, now: Time) {
    |Fresh(TimesOf(log, c), now)| < PER_CLIENT && |Fresh(Times(log), now)| < OVERALL
  }

  // ---------------------------------------------------------------- pruning loses nothing

  predicate Sorted(ts: seq<Time>) {
    forall i, j | 0 <= i < j < |ts| :: ts[i] <= ts[j]
  }

  /** `queue` is `ts` without some entries at the front that are too old at `now`. */
  predicate Trimmed(queue: seq<Time>, ts: seq<Time>, now: Time) {
    && |queue| <= |ts| && queue == ts[|ts| - |queue|..]
    && forall i | 0 <= i < |ts| - |queue| :: !Recent(ts[i], now)
  }

  lemma {:induction false} FreshAll(ts: seq<Time>, now: Time)
    requires forall i | 0 <= i < |ts| :: Recent(ts[i], now)
    ensures Fresh(ts, now) == ts
  {
    if ts != [] {
      FreshAll(ts[1..], now);
    }
  }

  lemma {:induction false} FreshDrop(ts: seq<Time>, k: nat, now: Time)
    requires k <= |ts| && forall i | 0 <= i < k :: !Recent(ts[i], now)
    ensures Fresh(ts, now) == Fresh(ts[k..], now)
    decreases k
  {
    if k > 0 {
      FreshDrop(ts[1..], k - 1, now);
      assert ts[1..][k - 1..] == ts[k..];
    } else {
      assert ts[0..] == ts;
    }
  }

  lemma {:induction false} PruneFresh(queue: seq<Time>, now: Time)
    requires Sorted(queue)
    ensures Prune(queue, now) == Fresh(queue, now)
  {
    if queue != [] {
      if Recent(queue[0], now) {
        FreshAll(queue, now);
      } else {
        PruneFresh(queue[1..], now);
      }
    }
  }

  /** The pruned queue holds exactly the recent attempts. */
  lemma QueueIsFresh(queue: seq<Time>, ts: seq<Time>, before: Time, now: Time)
    requires Trimmed(queue, ts, before) && Sorted(ts) && before <= now
    ensures Prune(queue, now) == Fresh(ts, now)
  {
    FreshDrop(ts, |ts| - |queue|, now);
    PruneFresh(queue, now);
  }

  lemma TrimmedCons(queue: seq<Time>, ts: seq<Time>, now: Time)
    requires ts != [] && !Recent(ts[0], now) && Trimmed(queue, ts[1..], now)
    ensures Trimmed(queue, ts, now)
  {
    hide Recent;
    assert ts[|ts| - |queue|..] == ts[1..][|ts| - 1 - |queue|..];
    assert forall i | 1 <= i < |ts| :: ts[i] == ts[1..][i - 1];
  }

  lemma {:induction false} FreshTrimmed(ts: seq<Time>, now: Time)
    requires Sorted(ts)
    ensures Trimmed(Fresh(ts, now), ts, now)
    decreases |ts|
  {
    if ts != [] {
      if Recent(ts[0], now) {
        FreshAll(ts, now);
      } else {
        FreshTrimmed(ts[1..], now);
        TrimmedCons(Fresh(ts[1..], now), ts, now);
        hide Recent, Trimmed;
        assert Fresh(ts, now) == Fresh(ts[1..], now);
      }
    }
  }

  lemma TrimmedMore(queue: seq<Time>, ts: seq<Time>, now: Time, t: Time)
    requires Trimmed(queue, ts, now)
    ensures Trimmed(queue + [t], ts + [t], now)
  {
    assert (ts + [t])[|ts| - |queue|..] == ts[|ts| - |queue|..] + [t];
  }

  lemma TrimmedLater(queue: seq<Time>, ts: seq<Time>, now: Time, later: Time)
    requires Trimmed(queue, ts, now) && now <= later
    ensures Trimmed(queue, ts, later)
  {
  }

  /** Forgetting a client drops only attempts that are too old. */
  lemma TrimmedForget(queue: seq<Time>, ts: seq<Time>, now: Time)
    requires Trimmed(queue, ts, now) && Sorted(ts)
    requires queue == [] || !Recent(queue[|queue| - 1], now)
    ensures Trimmed([], ts, now)
  {
    if queue != [] {
      assert queue[|queue| - 1] == ts[|ts| - 1];
    }
  }

  // ---------------------------------------------------------------- the limiter and the log

  /** The limiter knows, for every client and overall, all admitted attempts that can still matter at `now`. */
  ghost predicate Knows(l: Limiter, log: seq<Entry>, now: Time) {
    && Trimmed(l.all, Times(log), now)
    && (forall c :: Trimmed(Queue(l.attempts, c), TimesOf(log, c), now))
  }

  predicate Past(log: seq<Entry>, now: Time) {
    && (forall i | 0 <= i < |log| :: log[i].at <= now)
    && (forall i, j | 0 <= i < j < |log| :: log[i].at <= log[j].at)
  }

  lemma {:induction false} TimesSorted(log: seq<Entry>, now: Time)
    requires Past(log, now)
    ensures Sorted(Times(log)) && forall i | 0 <= i < |Times(log)| :: Times(log)[i] <= now
    decreases |log|
  {
    if log != [] {
      TimesSorted(log[..|log| - 1], log[|log| - 1].at);
    }
  }

  lemma {:induction false} TimesOfSorted(log: seq<Entry>, c: Client, now: Time)
    requires Past(log, now)
    ensures Sorted(TimesOf(log, c)) && forall i | 0 <= i < |TimesOf(log, c)| :: TimesOf(log, c)[i] <= now
    decreases |log|
  {
    if log != [] {
      TimesOfSorted(log[..|log| - 1], c, log[|log| - 1].at);
    }
  }

  /** What has been forgotten at `now` is still known. */
  lemma ForgetKnows(l: Limiter, log: seq<Entry>, before: Time, now: Time, c: Client)
    requires Knows(l, log, before) && Past(log, before) && before <= now
    ensures Trimmed(Queue(Forget(l.attempts, now), c), TimesOf(log, c), now)
  {
    TimesOfSorted(log, c, before);
    TrimmedLater(Queue(l.attempts, c), TimesOf(log, c), before, now);
    if c !in Forget(l.attempts, now) {
      TrimmedForget(Queue(l.attempts, c), TimesOf(log, c), now);
    }
  }

  /** The limiter decides by the rule, although it has thrown old attempts away. */
  lemma DecidesByRule(l: Limiter, log: seq<Entry>, before: Time, c: Client, now: Time)
    requires Knows(l, log, before) && Past(log, before) && before <= now
    ensures Attempt(l, c, now).1 <==> Allowed(log, c, now)
    ensures Prune(Queue(Forget(l.attempts, now), c), now) == Fresh(TimesOf(log, c), now)
    ensures Prune(l.all, now) == Fresh(Times(log), now)
  {
    TimesSorted(log, before);
    TimesOfSorted(log, c, before);
    ForgetKnows(l, log, before, now, c);
    QueueIsFresh(l.all, Times(log), before, now);
    QueueIsFresh(Queue(Forget(l.attempts, now), c), TimesOf(log, c), now, now);
  }

  function Logged(log: seq<Entry>, c: Client, now: Time): seq<Entry> {
    if Allowed(log, c, now) then log + [Entry(c, now)] else log
  }

  lemma LogMore(log: seq<Entry>, c: Client, now: Time, d: Client)
    ensures Times(log + [Entry(c, now)]) == Times(log) + [now]
    ensures TimesOf(log + [Entry(c, now)], d) == if d == c then TimesOf(log, d) + [now] else TimesOf(log, d)
  {
    assert (log + [Entry(c, now)])[..|log|] == log;
  }

  /** What a queue is after an attempt: the recent entries, and the new one if it was admitted. */
  function Pushed(ts: seq<Time>, now: Time, admitted: bool): seq<Time> {
    if admitted then Fresh(ts, now) + [now] else Fresh(ts, now)
  }

  lemma PushedTrimmed(ts: seq<Time>, now: Time, admitted: bool)
    requires Sorted(ts)
    ensures Trimmed(Pushed(ts, now, admitted), if admitted then ts + [now] else ts, now)
  {
    FreshTrimmed(ts, now);
    hide Trimmed, Fresh;
    TrimmedMore(Fresh(ts, now), ts, now, now);
  }

  lemma AttemptShape(l: Limiter, c: Client, now: Time, d: Client)
    ensures var (after, admitted) := Attempt(l, c, now);
            var mine, all := Prune(Queue(Forget(l.attempts, now), c), now), Prune(l.all, now);
            && after.all == (if admitted then all + [now] else all)
            && Queue(after.attempts, d) == if d != c then Queue(Forget(l.attempts, now), d)
                                           else if admitted then mine + [now] else mine
  {
    hide Forget, Prune;
  }

  lemma AttemptQueues(l: Limiter, log: seq<Entry>, before: Time, c: Client, now: Time, d: Client)
    requires Knows(l, log, before) && Past(log, before) && before <= now
    ensures var after := Attempt(l, c, now).0;
            && after.all == Pushed(Times(log), now, Allowed(log, c, now))
            && Queue(after.attempts, d) == if d == c then Pushed(TimesOf(log, c), now, Allowed(log, c, now))
                                           else Queue(Forget(l.attempts, now), d)
  {
    hide Attempt, Queue, Times, TimesOf, Recent, Trimmed, Sorted, Knows, Past, Forget, Prune, Fresh, Allowed;
    DecidesByRule(l, log, before, c, now);
    AttemptShape(l, c, now, d);
  }

  /** And it still knows what it needs afterwards. */
  lemma AttemptKnows(l: Limiter, log: seq<Entry>, before: Time, c: Client, now: Time)
    requires Knows(l, log, before) && Past(log, before) && before <= now
    ensures Knows(Attempt(l, c, now).0, Logged(log, c, now), now) && Past(Logged(log, c, now), now)
  {
    var after, log' := Attempt(l, c, now).0, Logged(log, c, now);
    var admitted := Allowed(log, c, now);
    hide Attempt, Allowed, Pushed, Trimmed, Times, TimesOf, Forget, Queue, Sorted, Fresh, Recent, Prune;
    assert Past(log', now);
    hide Past;
    TimesSorted(log, before);
    TimesOfSorted(log, c, before);
    PushedTrimmed(Times(log), now, admitted);
    PushedTrimmed(TimesOf(log, c), now, admitted);
    forall d
      ensures Trimmed(Queue(after.attempts, d), TimesOf(log', d), now)
    {
      AttemptQueues(l, log, before, c, now, d);
      LogMore(log, c, now, d);
      if d != c {
        ForgetKnows(l, log, before, now, d);
      }
    }
    AttemptQueues(l, log, before, c, now, c);
    LogMore(log, c, now, c);
  }

  // ---------------------------------------------------------------- whole runs

  datatype Login = Login(client: Client, now: Time)

  predicate Clocked(run: seq<Login>) {
    forall i, j | 0 <= i < j < |run| :: run[i].now <= run[j].now
  }

  function LimiterAfter(run: seq<Login>): Limiter {
    if run == [] then Limiter(map[], [])
    else Attempt(LimiterAfter(run[..|run| - 1]), run[|run| - 1].client, run[|run| - 1].now).0
  }

  /** The admitted attempts by the rule alone. */
  function LogAfter(run: seq<Login>): seq<Entry> {
    if run == [] then []
    else Logged(LogAfter(run[..|run| - 1]), run[|run| - 1].client, run[|run| - 1].now)
  }

  function LastTime(run: seq<Login>): Time {
    if run == [] then 0 else run[|run| - 1].now
  }

  lemma {:induction false} RunKnows(run: seq<Login>)
    requires Clocked(run)
    ensures Knows(LimiterAfter(run), LogAfter(run), LastTime(run)) && Past(LogAfter(run), LastTime(run))
  {
    if run != [] {
      var n := |run| - 1;
      RunKnows(run[..n]);
      AttemptKnows(LimiterAfter(run[..n]), LogAfter(run[..n]), LastTime(run[..n]), run[n].client, run[n].now);
    }
  }

  /** In every run the limiter admits exactly the attempts the rule admits: pruning never changes a decision. */
  lemma PruningNeverMatters(run: seq<Login>, c: Client, now: Time)
    requires Clocked(run) && LastTime(run) <= now
    ensures Attempt(LimiterAfter(run), c, now).1 <==> Allowed(LogAfter(run), c, now)
  {
    RunKnows(run);
    DecidesByRule(LimiterAfter(run), LogAfter(run), LastTime(run), c, now);
  }

  // ---------------------------------------------------------------- the bounds

  function Within(ts: seq<Time>, from: Time): nat {
    if ts == [] then 0
    else Within(ts[..|ts| - 1], from) + if from <= ts[|ts| - 1] < from + WINDOW then 1 else 0
  }

  lemma {:induction false} FreshCount(ts: seq<Time>, from: Time, now: Time)
    requires from <= now < from + WINDOW && forall i | 0 <= i < |ts| :: ts[i] <= now
    ensures Within(ts, from) <= |Fresh(ts, now)|
    decreases |ts|
  {
    if ts != [] {
      var n := |ts| - 1;
      FreshCount(ts[..n], from, now);
      FreshSnoc(ts[..n], ts[n], now);
      assert ts == ts[..n] + [ts[n]];
      FreshOne(ts[n], now);
    }
  }

  lemma FreshOne(t: Time, now: Time)
    ensures |Fresh([t], now)| == if Recent(t, now) then 1 else 0
  {
    assert [t][1..] == [];
  }

  lemma {:induction false} FreshSnoc(ts: seq<Time>, t: Time, now: Time)
    ensures Fresh(ts + [t], now) == Fresh(ts, now) + Fresh([t], now)
    decreases |ts|
  {
    hide Recent;
    if ts == [] {
      assert ts + [t] == [t];
    } else {
      assert (ts + [t])[1..] == ts[1..] + [t];
      FreshSnoc(ts[1..], t, now);
      var first := if Recent(ts[0], now) then [ts[0]] else [];
      assert first + (Fresh(ts[1..], now) + Fresh([t], now)) == first + Fresh(ts[1..], now) + Fresh([t], now);
    }
  }

  lemma WithinSnoc(ts: seq<Time>, t: Time, from: Time)
    ensures Within(ts + [t], from) == Within(ts, from) + if from <= t < from + WINDOW then 1 else 0
  {
    assert (ts + [t])[..|ts|] == ts;
  }

  lemma WithinBound(ts: seq<Time>, now: Time, from: Time, bound: nat)
    requires forall i | 0 <= i < |ts| :: ts[i] <= now
    requires |Fresh(ts, now)| < bound && Within(ts, from) <= bound
    ensures Within(ts + [now], from) <= bound
  {
    WithinSnoc(ts, now, from);
    if from <= now < from + WINDOW {
      FreshCount(ts, from, now);
    }
  }

  predicate Bounded(log: seq<Entry>, c: Client, from: Time) {
    Within(TimesOf(log, c), from) <= PER_CLIENT && Within(Times(log), from) <= OVERALL
  }

  lemma BoundedStep(log: seq<Entry>, before: Time, client: Client, now: Time, c: Client, from: Time)
    requires Bounded(log, c, from) && Past(log, before) && before <= now
    ensures Bounded(Logged(log, client, now), c, from)
  {
    hide Times, TimesOf, Within, Fresh, Past, Sorted, Recent, Knows, Trimmed, Prune, Forget, Queue, Attempt;
    TimesSorted(log, before);
    TimesOfSorted(log, c, before);
    LogMore(log, client, now, c);
    if Allowed(log, client, now) {
      WithinBound(Times(log), now, from, OVERALL);
      if c == client {
        WithinBound(TimesOf(log, c), now, from, PER_CLIENT);
      }
    }
  }

  /** The attempts that the limiter, with its pruned queues, let through. */
  function Admitted(run: seq<Login>): seq<Entry> {
    if run == [] then []
    else
      var n := |run| - 1;
      if Attempt(LimiterAfter(run[..n]), run[n].client, run[n].now).1
      then Admitted(run[..n]) + [Entry(run[n].client, run[n].now)]
      else Admitted(run[..n])
  }

  /** They are those that the rule lets through. */
  lemma {:induction false} AdmittedByRule(run: seq<Login>)
    requires Clocked(run)
    ensures Admitted(run) == LogAfter(run)
  {
    hide Attempt, Allowed;
    if run != [] {
      var n := |run| - 1;
      AdmittedByRule(run[..n]);
      PruningNeverMatters(run[..n], run[n].client, run[n].now);
    }
  }

  lemma {:induction false} RuleBounds(run: seq<Login>, c: Client, from: Time)
    requires Clocked(run)
    ensures Bounded(LogAfter(run), c, from)
  {
    hide Bounded, Past, Knows, Attempt, Logged;
    if run == [] {
      NothingBounded(c, from);
    } else {
      var n := |run| - 1;
      RuleBounds(run[..n], c, from);
      RunKnows(run[..n]);
      BoundedStep(LogAfter(run[..n]), LastTime(run[..n]), run[n].client, run[n].now, c, from);
    }
  }

  /** In any minute the limiter lets at most five logins of one client and thirty in all through to the password check. */
  lemma WindowBounds(run: seq<Login>, c: Client, from: Time)
    requires Clocked(run)
    ensures Within(TimesOf(Admitted(run), c), from) <= PER_CLIENT
    ensures Within(Times(Admitted(run)), from) <= OVERALL
  {
    hide Within, Times, TimesOf, Admitted, LogAfter;
    AdmittedByRule(run);
    RuleBounds(run, c, from);
  }

  // ---------------------------------------------------------------- when an attempt is refused

  /** The attempts in the log, of one client or of all, that were made less than 60 seconds before `now`. */
  function LastMinute(log: seq<Entry>, c: Option<Client>, now: Time): nat {
    if log == [] then 0
    else
      var e := log[|log| - 1];
      LastMinute(log[..|log| - 1], c, now) + if now < e.at + 60_000_000 && (c.Some? ==> c.value == e.client) then 1 else 0
  }

  lemma {:induction false} FreshLogged(log: seq<Entry>, c: Client, now: Time)
    ensures |Fresh(TimesOf(log, c), now)| == LastMinute(log, Some(c), now)
    ensures |Fresh(Times(log), now)| == LastMinute(log, None, now)
  {
    if log != [] {
      var n := |log| - 1;
      FreshLogged(log[..n], c, now);
      FreshSnoc(TimesOf(log[..n], c), log[n].at, now);
      FreshSnoc(Times(log[..n]), log[n].at, now);
      FreshOne(log[n].at, now);
      assert TimesOf(log[..n], c) + [] == TimesOf(log[..n], c);
      hide Fresh;
    }
  }

  /** An attempt is let through exactly if in the last 60 seconds fewer than five of its client and fewer than thirty in
      all were. */
  lemma AdmittedExactly(run: seq<Login>, c: Client, now: Time)
    requires Clocked(run) && LastTime(run) <= now
    ensures Attempt(LimiterAfter(run), c, now).1
       <==> LastMinute(Admitted(run), Some(c), now) < 5 && LastMinute(Admitted(run), None, now) < 30
  {
    hide Attempt, Fresh, Times, TimesOf, Admitted, LogAfter, LastMinute;
    PruningNeverMatters(run, c, now);
    AdmittedByRule(run);
    FreshLogged(LogAfter(run), c, now);
  }

  lemma NothingBounded(c: Client, from: Time)
    ensures Bounded([], c, from)
  {
  }
}
