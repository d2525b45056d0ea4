/** The store of attempts, sessions and credentials as it runs (backend/app/security/auth.py). */
module AuthStores {
  import opened Prelude
  import opened LoginLimiter
  import opened SessionSpec

  class AuthStore {
    var attempts: map<Client, seq<Time>>
    var globalAttempts: seq<Time>
    var sessions: Sessions
    var password: string
    var stored: bool

    constructor (password: string, stored: bool)
      ensures State() == Store(Limiter(map[], []), map[], password, stored)
    {
      attempts, globalAttempts, sessions := map[], [], map[];
      this.password, this.stored := password, stored;
    }

    function State(): Store
      reads this
    {
      Store(Limiter(attempts, globalAttempts), sessions, password, stored)
    }

    /** The queue without what is older than a minute. */
    static method PopOld(queue: seq<Time>, now: Time) returns (rest: seq<Time>)
      ensures rest == Prune(queue, now)
    {
      rest := queue;
      while rest != [] && now >= rest[0] + WINDOW
        invariant Prune(rest, now) == Prune(queue, now)
        decreases |rest|
      {
        rest := rest[1..];
      }
    }

    /** The sliding window: whether the password is looked at. */
    method Admit(client: Client, now: Time) returns (admitted: bool)
      modifies this`attempts, this`globalAttempts
      ensures (Limiter(attempts, globalAttempts), admitted) == Attempt(old(Limiter(attempts, globalAttempts)), client, now)
    {
      attempts := Forget(attempts, now);
      var mine := PopOld(Queue(attempts, client), now);
      globalAttempts := PopOld(globalAttempts, now);
      if |mine| >= PER_CLIENT || |globalAttempts| >= OVERALL {
        attempts := attempts[client := mine];
        return false;
      }
      attempts := attempts[client := mine + [now]];
      globalAttempts := globalAttempts + [now];
      admitted := true;
    }

    /** A session seen least recently. */
    static method LeastRecent(sessions: Sessions) returns (victim: Token)
      requires sessions != map[]
      ensures Oldest(sessions, victim)
    {
      RowsExist(sessions.Keys);
      var rows: seq<Token> :| Lists(rows, sessions.Keys);
      assert rows != [];
      victim := rows[0];
      for i := 1 to |rows|
        invariant victim in sessions
        invariant forall j | 0 <= j < i :: sessions[victim].lastSeen <= sessions[rows[j]].lastSeen
      {
        if sessions[rows[i]].lastSeen < sessions[victim].lastSeen {
          victim := rows[i];
        }
      }
    }

    method AddSession(now: Time, token: Token) returns (ghost victim: Token)
      modifies this`sessions
      ensures Evictable(old(sessions), now, victim)
      ensures sessions == SessionSpec.NewSession(old(sessions), token, now, victim)
    {
      sessions := Living(sessions, now);
      victim := token;
      if |sessions| >= MOST {
        var least := LeastRecent(sessions);
        victim := least;
        sessions := sessions - {least};
      }
      sessions := sessions[token := Session(now + LIFETIME, now)];
    }

    method LogIn(username: string, given: string, client: Client, now: Time, token: Token, loads: bool, saves: bool)
      returns (reply: Reply, ghost victim: Token)
      modifies this
      ensures reply.SignedIn? ==> Evictable(old(sessions), now, victim)
      ensures (State(), reply) == SessionSpec.LogIn(old(State()), username, given, client, now, token, victim, loads, saves)
    {
      victim := token;
      var admitted := Admit(client, now);
      if !admitted {
        return TooMany, victim;
      }
      if !loads {
        return Unavailable, victim;
      }
      if username != "admin" || given != password {
        return Wrong, victim;
      }
      if !stored {
        if !saves {
          return Unavailable, victim;
        }
        stored := true;
      }
      victim := AddSession(now, token);
      reply := SignedIn(token);
    }

    method CheckSession(token: Token, now: Time, touch: bool) returns (valid: bool)
      modifies this`sessions
      ensures (sessions, valid) == Check(old(sessions), token, now, touch)
    {
      if token !in sessions || now >= sessions[token].expires || now >= sessions[token].lastSeen + IDLE {
        sessions := sessions - {token};
        return false;
      }
      if touch {
        sessions := sessions[token := sessions[token].(lastSeen := now)];
      }
      valid := true;
    }

    method LogOut(token: Token)
      modifies this`sessions
      ensures State() == SessionSpec.LogOut(old(State()), token)
    {
      sessions := sessions - {token};
    }

    method ChangePassword(session: Token, current: string, wanted: string, now: Time, token: Token, loads: bool, saves: bool)
      returns (reply: Reply, ghost victim: Token)
      modifies this
      ensures (State(), reply) == SessionSpec.ChangePassword(old(State()), session, current, wanted, now, token, victim,
                                                             loads, saves)
    {
      victim := token;
      var valid := CheckSession(session, now, true);
      if !valid {
        return Wrong, victim;
      }
      if !loads {
        return Unavailable, victim;
      }
      if current != password || |wanted| < 12 || wanted == "ChangeMe" || wanted == current {
        return Rejected, victim;
      }
      if !saves {
        return Unavailable, victim;
      }
      password, stored := wanted, true;
      sessions := map[];
      victim := AddSession(now, token);
      reply := SignedIn(token);
    }
  }
}
