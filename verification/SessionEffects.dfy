/** Exactly which logins, checks and changes of the password succeed, and what they leave in the table of sessions. */
module SessionEffects {
  import opened Prelude
  import opened LoginLimiter
  import opened SessionSpec
  import opened SessionRuns

  /** Within eight hours of its issue, when it was given its end, and thirty minutes of its last use. */
  predicate InTime(x: Session, now: Time) {
    now < x.expires && now < x.lastSeen + 30 * 60 * 1_000_000
  }

  /** Every session that is in time stays as it was, apart from the one that has to make room and `token` itself. */
  ghost predicate OthersStay(before: Sessions, after: Sessions, now: Time, token: Token, victim: Token) {
    forall k | k != token ::
      && (k in after ==> k in before && after[k] == before[k] && InTime(before[k], now))
      && (k in before && InTime(before[k], now) && k !in after ==> k == victim && |Living(before, now)| >= 32)
  }

  ghost predicate SignedInNow(after: Sessions, now: Time, token: Token) {
    token in after && after[token].expires == now + 8 * 3600 * 1_000_000 && after[token].lastSeen == now
  }

  /** A login succeeds exactly with the right name and password, if the limit lets it through and the credential file can
      be read, and written where there is none yet. It adds one session; a login that fails changes none, nor the
      password. */
  lemma LogInExactly(s: Store, username: string, password: string, client: Client, now: Time, token: Token, victim: Token,
                     loads: bool, saves: bool)
    ensures var (after, reply) := LogIn(s, username, password, client, now, token, victim, loads, saves);
            var admitted := Attempt(s.limiter, client, now).1;
            && (reply.SignedIn? <==> admitted && loads && username == "admin" && password == s.password && (s.stored || saves))
            && (reply == TooMany <==> !admitted)
            && (reply == Wrong <==> admitted && loads && (username != "admin" || password != s.password))
            && (reply == Unavailable <==>
                 admitted && (!loads || (username == "admin" && password == s.password && !s.stored && !saves)))
            && after.limiter == Attempt(s.limiter, client, now).0 && after.password == s.password
            && (!reply.SignedIn? ==> after.sessions == s.sessions && after.stored == s.stored)
            && (reply.SignedIn? ==>
                 && reply.token == token && after.stored && SignedInNow(after.sessions, now, token)
                 && OthersStay(s.sessions, after.sessions, now, token, victim))
  {
    hide Attempt;
  }

  /** A check succeeds exactly for a session that is there and in time; it can only move its last use, and a session that
      is not in time is thrown away. */
  lemma CheckExactly(sessions: Sessions, token: Token, now: Time, touch: bool)
    ensures var (after, valid) := Check(sessions, token, now, touch);
            && (valid <==> token in sessions && InTime(sessions[token], now))
            && (!valid ==> token !in after) && (valid ==> token in after)
            && (valid ==> && after[token].expires == sessions[token].expires
                          && after[token].lastSeen == if touch then now else sessions[token].lastSeen)
            && after - {token} == sessions - {token}
  {
  }

  lemma LogOutExactly(s: Store, token: Token)
    ensures var after := LogOut(s, token);
            && token !in after.sessions && after.sessions - {token} == s.sessions - {token}
            && after.password == s.password && after.stored == s.stored && after.limiter == s.limiter
  {
  }

  /** The password is changed exactly for a session in time, with the current password and a new one that is long enough and
      different, if the file can be read and written. Then only one session is left, a new one; otherwise the password
      and all other sessions stay. */
  lemma ChangeExactly(s: Store, session: Token, current: string, wanted: string, now: Time, token: Token, victim: Token,
                      loads: bool, saves: bool)
    ensures var (after, reply) := ChangePassword(s, session, current, wanted, now, token, victim, loads, saves);
            && (reply.SignedIn? <==>
                 && session in s.sessions && InTime(s.sessions[session], now) && loads && saves && current == s.password
                 && |wanted| >= 12 && wanted != "ChangeMe" && wanted != current)
            && (reply == Wrong <==> session !in s.sessions || !InTime(s.sessions[session], now))
            && after.limiter == s.limiter
            && (!reply.SignedIn? ==>
                 && after.password == s.password && after.stored == s.stored
                 && after.sessions == Check(s.sessions, session, now, true).0)
            && (reply.SignedIn? ==>
                 && reply.token == token && after.password == wanted && after.stored
                 && after.sessions.Keys == {token} && SignedInNow(after.sessions, now, token))
  {
    OnlyOne(token, now, victim);
  }

  // ---------------------------------------------------------------- the password over whole runs

  ghost predicate ChangedAt(s: Store, run: seq<Step>, i: nat) {
    && i < |run| && run[i].Changing?
    && ChangePassword(StoreAt(s, run, i), run[i].session, run[i].current, run[i].wanted, run[i].now, run[i].token,
                      run[i].victim, run[i].loads, run[i].saves).1.SignedIn?
  }

  /** `p` is what the last successful change before `n` set, or the first password if there was none. */
  ghost predicate InForce(s: Store, run: seq<Step>, n: nat, p: string) {
    || (p == s.password && forall i | 0 <= i < n :: !ChangedAt(s, run, i))
    || (exists i :: && 0 <= i < n && ChangedAt(s, run, i) && p == run[i].wanted
                    && forall j | i < j < n :: !ChangedAt(s, run, j))
  }

  lemma StepPassword(s: Store, run: seq<Step>, n: nat)
    requires n < |run|
    ensures StoreAt(s, run, n + 1).password
         == if ChangedAt(s, run, n) then run[n].wanted else StoreAt(s, run, n).password
  {
    var before := StoreAt(s, run, n);
    assert StoreAt(s, run, n + 1) == Next(before, run[n]);
    hide Attempt, LogIn, ChangePassword, Check, StoreAt;
    match run[n]
    case LoggingIn(username, password, client, now, token, victim, loads, saves) =>
      LogInExactly(before, username, password, client, now, token, victim, loads, saves);
    case Checking(_, _, _) =>
    case LoggingOut(_, _) =>
    case Changing(session, current, wanted, now, token, victim, loads, saves) =>
      ChangeExactly(before, session, current, wanted, now, token, victim, loads, saves);
  }

  lemma {:induction false} PasswordInForce(s: Store, run: seq<Step>, n: nat)
    requires n <= |run|
    ensures InForce(s, run, n, StoreAt(s, run, n).password)
  {
    hide ChangedAt, Next;
    if n > 0 {
      PasswordInForce(s, run, n - 1);
      StepPassword(s, run, n - 1);
    }
  }

  ghost predicate LoggedInAt(s: Store, run: seq<Step>, m: nat) {
    && m < |run| && run[m].LoggingIn?
    && LogIn(StoreAt(s, run, m), run[m].username, run[m].password, run[m].client, run[m].now, run[m].token, run[m].victim,
             run[m].loads, run[m].saves).1.SignedIn?
  }

  /** In every run a token gets into the table only by a login as "admin" with the password then in force, or by a change
      of the password. */
  lemma TokenNeedsPassword(s: Store, run: seq<Step>, m: nat, k: Token)
    requires m < |run| && k !in StoreAt(s, run, m).sessions && k in StoreAt(s, run, m + 1).sessions
    ensures LoggedInAt(s, run, m) || ChangedAt(s, run, m)
    ensures LoggedInAt(s, run, m) ==>
              run[m].token == k && run[m].username == "admin" && InForce(s, run, m, run[m].password)
    ensures ChangedAt(s, run, m) ==> run[m].token == k && InForce(s, run, m, run[m].current)
  {
    PasswordInForce(s, run, m);
    var before := StoreAt(s, run, m);
    assert StoreAt(s, run, m + 1) == Next(before, run[m]);
    hide Attempt, LogIn, ChangePassword, Check, StoreAt, InForce, InTime, LogOut, Living;
    match run[m]
    case LoggingIn(username, password, client, now, token, victim, loads, saves) =>
      LogInExactly(before, username, password, client, now, token, victim, loads, saves);
    case Checking(session, now, touch) =>
      CheckExactly(before.sessions, session, now, touch);
      NotAdded(before.sessions, Check(before.sessions, session, now, touch).0, session, k);
    case LoggingOut(session, _) =>
      LogOutExactly(before, session);
      NotAdded(before.sessions, LogOut(before, session).sessions, session, k);
    case Changing(session, current, wanted, now, token, victim, loads, saves) =>
      ChangeExactly(before, session, current, wanted, now, token, victim, loads, saves);
      CheckExactly(before.sessions, session, now, true);
      NotAdded(before.sessions, Check(before.sessions, session, now, true).0, session, k);
  }

  lemma NotAdded(before: Sessions, after: Sessions, session: Token, k: Token)
    requires after - {session} == before - {session} && (session in after ==> session in before)
    ensures k in after ==> k in before
  {
    assert k != session ==> (k in after <==> k in after - {session}) && (k in before <==> k in before - {session});
  }

  // ---------------------------------------------------------------- sessions that go on

  /** The step ends session `k` although it is in time: it is logged out, superseded, or makes room. */
  ghost predicate EndsAt(s: Store, run: seq<Step>, i: nat, k: Token) {
    && i < |run|
    && (|| (run[i].LoggingOut? && run[i].session == k)
        || ChangedAt(s, run, i)
        || (LoggedInAt(s, run, i) && run[i].victim == k && |Living(StoreAt(s, run, i).sessions, run[i].now)| >= 32))
  }

  lemma StepGoesOn(s: Store, run: seq<Step>, i: nat, k: Token)
    requires i < |run| && k in StoreAt(s, run, i).sessions && InTime(StoreAt(s, run, i).sessions[k], run[i].now)
    requires !EndsAt(s, run, i, k) && !Issues(run[i], k)
    ensures k in StoreAt(s, run, i + 1).sessions
    ensures StoreAt(s, run, i + 1).sessions[k].expires == StoreAt(s, run, i).sessions[k].expires
    ensures StoreAt(s, run, i + 1).sessions[k].lastSeen in {StoreAt(s, run, i).sessions[k].lastSeen, run[i].now}
  {
    var before := StoreAt(s, run, i);
    assert StoreAt(s, run, i + 1) == Next(before, run[i]);
    hide Attempt, LogIn, ChangePassword, Check, StoreAt, InTime, LogOut, Living;
    match run[i]
    case LoggingIn(username, password, client, now, token, victim, loads, saves) =>
      LogInExactly(before, username, password, client, now, token, victim, loads, saves);
    case Checking(session, now, touch) =>
      CheckExactly(before.sessions, session, now, touch);
      SameOther(before.sessions, Check(before.sessions, session, now, touch).0, session, k);
    case LoggingOut(session, _) =>
      LogOutExactly(before, session);
      SameOther(before.sessions, LogOut(before, session).sessions, session, k);
    case Changing(session, current, wanted, now, token, victim, loads, saves) =>
      ChangeExactly(before, session, current, wanted, now, token, victim, loads, saves);
      CheckExactly(before.sessions, session, now, true);
      SameOther(before.sessions, Check(before.sessions, session, now, true).0, session, k);
  }

  lemma SameOther(before: Sessions, after: Sessions, session: Token, k: Token)
    requires after - {session} == before - {session} && k in before
    ensures k != session ==> k in after && after[k] == before[k]
  {
    if k != session {
      assert k in before - {session} && (before - {session})[k] == before[k];
      assert k in after - {session} && (after - {session})[k] == after[k];
    }
  }

  /** A session last used less than thirty minutes ago and not over is accepted, whatever else happened in between, as
      long as nothing ended it. */
  lemma {:induction false} StillAccepted(s: Store, run: seq<Step>, m: nat, n: nat, k: Token, now: Time, touch: bool)
    requires m <= n <= |run| && k in StoreAt(s, run, m).sessions && InTime(StoreAt(s, run, m).sessions[k], now)
    requires forall i | m <= i < n :: run[i].now <= now && !EndsAt(s, run, i, k) && !Issues(run[i], k)
    requires forall i, j | m <= i < j < n :: run[i].now <= run[j].now
    requires forall i | m <= i < n :: StoreAt(s, run, m).sessions[k].lastSeen <= run[i].now
    ensures Check(StoreAt(s, run, n).sessions, k, now, touch).1
    decreases n - m
  {
    hide Next, EndsAt, Issues;
    if m == n {
      CheckExactly(StoreAt(s, run, n).sessions, k, now, touch);
    } else {
      StepGoesOn(s, run, m, k);
      StillAccepted(s, run, m + 1, n, k, now, touch);
    }
  }
}
