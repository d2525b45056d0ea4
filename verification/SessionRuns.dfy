/** Sessions over whole runs: how many there are, how long they last, and that a dead one stays dead. */
module SessionRuns {
  import opened Prelude
  import opened LoginLimiter
  import opened SessionSpec

  datatype Step =
    | LoggingIn(username: string, password: string, client: Client, now: Time, token: Token, victim: Token,
                loads: bool, saves: bool)
    | Checking(session: Token, now: Time, touch: bool)
    | LoggingOut(session: Token, now: Time)
    | Changing(session: Token, current: string, wanted: string, now: Time, token: Token, victim: Token,
               loads: bool, saves: bool)

  function Next(s: Store, step: Step): Store {
    match step
    case LoggingIn(username, password, client, now, token, victim, loads, saves) =>
      LogIn(s, username, password, client, now, token, victim, loads, saves).0
    case Checking(session, now, touch) => s.(sessions := Check(s.sessions, session, now, touch).0)
    case LoggingOut(session, _) => LogOut(s, session)
    case Changing(session, current, wanted, now, token, victim, loads, saves) =>
      ChangePassword(s, session, current, wanted, now, token, victim, loads, saves).0
  }

  function StoreAt(s: Store, run: seq<Step>, n: nat): Store
    requires n <= |run|
  {
    if n == 0 then s else Next(StoreAt(s, run, n - 1), run[n - 1])
  }

  /** The session that makes room is a least recently seen one. */
  predicate Proper(s: Store, step: Step) {
    match step
    case LoggingIn(_, _, _, now, _, victim, _, _) => Evictable(s.sessions, now, victim)
    case _ => true
  }

  // ---------------------------------------------------------------- the table

  lemma LivingFewer(sessions: Sessions, now: Time)
    ensures |Living(sessions, now)| <= |sessions|
  {
    SubsetSize(Living(sessions, now).Keys, sessions.Keys);
  }

  lemma {:induction false} SubsetSize<T>(a: set<T>, b: set<T>)
    requires a <= b
    ensures |a| <= |b|
  {
    if a != {} {
      var x :| x in a;
      SubsetSize(a - {x}, b - {x});
    }
  }

  lemma OneMore(sessions: Sessions, token: Token, x: Session)
    ensures |sessions[token := x]| <= |sessions| + 1
  {
    var all := sessions[token := x].Keys;
    assert all == sessions.Keys + {token};
    SubsetSize(all - {token}, sessions.Keys);
  }

  lemma OneLess(sessions: Sessions, k: Token)
    requires k in sessions
    ensures |sessions - {k}| == |sessions| - 1
  {
    assert (sessions - {k}).Keys == sessions.Keys - {k};
  }

  /** A new session never makes more than 32. */
  lemma NewSessionFits(sessions: Sessions, token: Token, now: Time, victim: Token)
    requires |sessions| <= MOST && Evictable(sessions, now, victim)
    ensures |NewSession(sessions, token, now, victim)| <= MOST
  {
    LivingFewer(sessions, now);
    hide Living;
    var living := Living(sessions, now);
    if |living| >= MOST {
      OneLess(living, victim);
      OneMore(living - {victim}, token, Session(now + LIFETIME, now));
    } else {
      OneMore(living, token, Session(now + LIFETIME, now));
    }
  }

  /** It takes the place of at most one living session, only if there are 32, and then of one seen least recently. */
  lemma NewSessionSpares(sessions: Sessions, token: Token, now: Time, victim: Token, k: Token)
    requires Evictable(sessions, now, victim) && token !in sessions
    requires k in sessions && Alive(sessions[k], now) && k !in NewSession(sessions, token, now, victim)
    ensures |Living(sessions, now)| >= MOST && k == victim
    ensures forall l | l in sessions && Alive(sessions[l], now) :: sessions[k].lastSeen <= sessions[l].lastSeen
  {
    assert forall l | l in Living(sessions, now) :: sessions[k].lastSeen <= sessions[l].lastSeen;
  }

  lemma CheckFits(sessions: Sessions, token: Token, now: Time, touch: bool)
    requires |sessions| <= MOST
    ensures |Check(sessions, token, now, touch).0| <= MOST
  {
    var after := Check(sessions, token, now, touch).0;
    assert after.Keys <= sessions.Keys;
    SubsetSize(after.Keys, sessions.Keys);
  }

  /** After a change of the password there is exactly one session, the new one. */
  lemma OnlyOne(token: Token, now: Time, victim: Token)
    ensures NewSession(map[], token, now, victim) == map[token := Session(now + LIFETIME, now)]
    ensures |NewSession(map[], token, now, victim)| == 1
  {
    assert Living(map[], now) == map[];
  }

  lemma LogInFits(s: Store, username: string, password: string, client: Client, now: Time, token: Token, victim: Token,
                  loads: bool, saves: bool)
    requires |s.sessions| <= MOST && Evictable(s.sessions, now, victim)
    ensures |LogIn(s, username, password, client, now, token, victim, loads, saves).0.sessions| <= MOST
  {
    hide NewSession, Evictable, Attempt;
    NewSessionFits(s.sessions, token, now, victim);
  }

  lemma ChangeFits(s: Store, session: Token, current: string, wanted: string, now: Time, token: Token, victim: Token,
                   loads: bool, saves: bool)
    requires |s.sessions| <= MOST
    ensures |ChangePassword(s, session, current, wanted, now, token, victim, loads, saves).0.sessions| <= MOST
  {
    hide NewSession, Check;
    CheckFits(s.sessions, session, now, true);
    OnlyOne(token, now, victim);
  }

  lemma StepFits(s: Store, step: Step)
    requires |s.sessions| <= MOST && Proper(s, step)
    ensures |Next(s, step).sessions| <= MOST
  {
    hide LogIn, ChangePassword, Evictable, Check;
    match step
    case LoggingIn(username, password, client, now, token, victim, loads, saves) =>
      LogInFits(s, username, password, client, now, token, victim, loads, saves);
    case Checking(session, now, touch) => CheckFits(s.sessions, session, now, touch);
    case LoggingOut(session, _) =>
      SubsetSize((s.sessions - {session}).Keys, s.sessions.Keys);
    case Changing(session, current, wanted, now, token, victim, loads, saves) =>
      ChangeFits(s, session, current, wanted, now, token, victim, loads, saves);
  }

  /** In every run there are never more than 32 sessions. */
  lemma {:induction false} AtMost32(s: Store, run: seq<Step>, n: nat)
    requires |s.sessions| <= MOST && n <= |run|
    requires forall k | 0 <= k < n :: Proper(StoreAt(s, run, k), run[k])
    ensures |StoreAt(s, run, n).sessions| <= MOST
  {
    hide Next, Proper;
    if n > 0 {
      AtMost32(s, run, n - 1);
      StepFits(StoreAt(s, run, n - 1), run[n - 1]);
    }
  }

  // ---------------------------------------------------------------- one session

  predicate Issues(step: Step, k: Token) {
    (step.LoggingIn? || step.Changing?) && step.token == k
  }

  predicate Uses(step: Step, k: Token) {
    || (step.Checking? && step.session == k && step.touch)
    || (step.Changing? && step.session == k)
  }

  /** A step that does not issue `k` cannot bring it back, keeps its end, and sets its last use only to the time of a
      check of `k` that it passed. */
  lemma StepOfOne(s: Store, step: Step, k: Token)
    requires !Issues(step, k)
    ensures k in Next(s, step).sessions ==>
              && k in s.sessions
              && Next(s, step).sessions[k].expires == s.sessions[k].expires
              && (|| Next(s, step).sessions[k] == s.sessions[k]
                  || (Uses(step, k) && Alive(s.sessions[k], step.now)
                      && Next(s, step).sessions[k].lastSeen == step.now))
  {
    hide Attempt, Evictable;
  }

  /** A token that is not in the table stays out of it: logged out, expired, idle, evicted or superseded for good. */
  lemma {:induction false} DeadStaysDead(s: Store, run: seq<Step>, m: nat, n: nat, k: Token)
    requires m <= n <= |run| && k !in StoreAt(s, run, m).sessions
    requires forall i | m <= i < n :: !Issues(run[i], k)
    ensures k !in StoreAt(s, run, n).sessions
    decreases n
  {
    hide Next, Issues;
    if m < n {
      DeadStaysDead(s, run, m, n - 1, k);
      StepOfOne(StoreAt(s, run, n - 1), run[n - 1], k);
    }
  }

  /** Once a check has refused a token, every later check refuses it too. */
  lemma RefusedForGood(s: Store, run: seq<Step>, m: nat, n: nat, k: Token, now: Time, touch: bool)
    requires m < n <= |run| && run[m].Checking? && run[m].session == k
    requires !Check(StoreAt(s, run, m).sessions, k, run[m].now, run[m].touch).1
    requires forall i | m < i < n :: !Issues(run[i], k)
    ensures !Check(StoreAt(s, run, n).sessions, k, now, touch).1
  {
    assert k !in StoreAt(s, run, m + 1).sessions;
    DeadStaysDead(s, run, m + 1, n, k);
  }

  lemma IssuedAt(s: Store, step: Step, k: Token)
    requires Issues(step, k) && k !in s.sessions && k in Next(s, step).sessions
    requires step.Changing? ==> step.session != k
    ensures Next(s, step).sessions[k] == Session(step.now + LIFETIME, step.now)
  {
    hide Attempt, Evictable;
  }

  /** The last use recorded for `k` is its issue at step `m` or a passed check after it. */
  ghost predicate LastUse(s: Store, run: seq<Step>, m: nat, n: nat, k: Token, t: Time)
    requires m < n <= |run|
  {
    exists j :: m <= j < n && run[j].now == t && (j == m || UsedAt(s, run, j, k))
  }

  ghost predicate UsedAt(s: Store, run: seq<Step>, j: nat, k: Token)
    requires j < |run|
  {
    Uses(run[j], k) && k in StoreAt(s, run, j).sessions && Alive(StoreAt(s, run, j).sessions[k], run[j].now)
  }

  /** What the table says about a session issued at step `m`. */
  lemma {:induction false} SessionHistory(s: Store, run: seq<Step>, m: nat, n: nat, k: Token)
    requires m < n <= |run| && Issues(run[m], k) && k !in StoreAt(s, run, m).sessions
    requires run[m].Changing? ==> run[m].session != k
    requires forall i | m < i < n :: !Issues(run[i], k)
    requires k in StoreAt(s, run, n).sessions
    ensures var x := StoreAt(s, run, n).sessions[k];
            x.expires == run[m].now + LIFETIME && LastUse(s, run, m, n, k, x.lastSeen)
    decreases n
  {
    hide Next, Alive;
    if n == m + 1 {
      IssuedAt(StoreAt(s, run, m), run[m], k);
    } else {
      var before := StoreAt(s, run, n - 1);
      StepOfOne(before, run[n - 1], k);
      SessionHistory(s, run, m, n - 1, k);
      var t := before.sessions[k].lastSeen;
      var j :| m <= j < n - 1 && run[j].now == t && (j == m || UsedAt(s, run, j, k));
      assert StoreAt(s, run, n).sessions[k] != before.sessions[k] ==> UsedAt(s, run, n - 1, k);
      hide UsedAt, Issues;
      assert LastUse(s, run, m, n, k, t);
      if StoreAt(s, run, n).sessions[k] != before.sessions[k] {
        assert run[n - 1].now == StoreAt(s, run, n).sessions[k].lastSeen;
      }
    }
  }

  /** A session is accepted only within eight hours of its issue and within thirty minutes of its issue or of an
      earlier accepted use. */
  lemma AcceptedIsRecent(s: Store, run: seq<Step>, m: nat, n: nat, k: Token, now: Time, touch: bool)
    requires m < n <= |run| && Issues(run[m], k) && k !in StoreAt(s, run, m).sessions
    requires run[m].Changing? ==> run[m].session != k
    requires forall i | m < i < n :: !Issues(run[i], k)
    requires Check(StoreAt(s, run, n).sessions, k, now, touch).1
    ensures now < run[m].now + LIFETIME
    ensures exists t: Time :: LastUse(s, run, m, n, k, t) && now < t + IDLE
  {
    SessionHistory(s, run, m, n, k);
    var t := StoreAt(s, run, n).sessions[k].lastSeen;
    assert LastUse(s, run, m, n, k, t) && now < t + IDLE;
  }

  /** Changing the password ends every other session. */
  lemma ChangeEndsOthers(s: Store, session: Token, current: string, wanted: string, now: Time, token: Token,
                         victim: Token, loads: bool, saves: bool)
    requires ChangePassword(s, session, current, wanted, now, token, victim, loads, saves).1.SignedIn?
    ensures var after := ChangePassword(s, session, current, wanted, now, token, victim, loads, saves).0;
            && after.sessions.Keys == {token} && after.password == wanted != s.password && current == s.password
            && session in s.sessions && Alive(s.sessions[session], now)
  {
    OnlyOne(token, now, victim);
  }
}
