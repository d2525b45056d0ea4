/** Administrator sessions and the password (backend/app/security/auth.py). The clock is monotonic, session tokens
    are random and do not repeat, and a password hash matches its own password only. */
module SessionSpec {
  import opened Prelude
  import opened LoginLimiter

  type Token = string

  const LIFETIME: nat := 8 * 3600 * SECOND
  const IDLE: nat := 30 * 60 * SECOND
  const MOST: nat := 32

  datatype Session = Session(expires: Time, lastSeen: Time)

  type Sessions = map<Token, Session>

  predicate Alive(s: Session, now: Time) {
    now < s.expires && now < s.lastSeen + IDLE
  }

  function Living(sessions: Sessions, now: Time): Sessions {
    map k | k in sessions && Alive(sessions[k], now) :: sessions[k]
  }

  predicate Oldest(sessions: Sessions, k: Token) {
    k in sessions && forall l | l in sessions :: sessions[k].lastSeen <= sessions[l].lastSeen
  }

  /** Which session has to make room: one seen least recently, if the table is full. */
  predicate Evictable(sessions: Sessions, now: Time, victim: Token) {
    |Living(sessions, now)| >= MOST ==> Oldest(Living(sessions, now), victim)
  }

  function NewSession(sessions: Sessions, token: Token, now: Time, victim: Token): Sessions {
    var living := Living(sessions, now);
    var room := if |living| >= MOST then living - {victim} else living;
    room[token := Session(now + LIFETIME, now)]
  }

  /** The lookup: a dead session is thrown away, a living one is touched. */
  function Check(sessions: Sessions, token: Token, now: Time, touch: bool): (Sessions, bool) {
    if token !in sessions || !Alive(sessions[token], now) then (sessions - {token}, false)
    else (if touch then sessions[token := sessions[token].(lastSeen := now)] else sessions, true)
  }

  // ---------------------------------------------------------------- the store

  /** `stored`: the credential file exists; without it the password is the initial one. */
  datatype Store = Store(limiter: Limiter, sessions: Sessions, password: string, stored: bool)

  datatype Reply = TooMany | Wrong | Unavailable | Rejected | SignedIn(token: Token)

  function LogIn(s: Store, username: string, password: string, client: Client, now: Time, token: Token, victim: Token,
                 loads: bool, saves: bool): (Store, Reply)
  {
    var (limiter, admitted) := Attempt(s.limiter, client, now);
    var t := s.(limiter := limiter);
    if !admitted then (t, TooMany)
    else if !loads then (t, Unavailable)
    else if username != "admin" || password != s.password then (t, Wrong)
    else if !s.stored && !saves then (t, Unavailable)
    else (t.(stored := true, sessions := NewSession(s.sessions, token, now, victim)), SignedIn(token))
  }

  function LogOut(s: Store, token: Token): Store {
    s.(sessions := s.sessions - {token})
  }

  function ChangePassword(s: Store, old': Token, current: string, new': string, now: Time, token: Token, victim: Token,
                          loads: bool, saves: bool): (Store, Reply)
  {
    var (sessions, valid) := Check(s.sessions, old', now, true);
    var t := s.(sessions := sessions);
    if !valid then (t, Wrong)
    else if !loads then (t, Unavailable)
    else if current != s.password then (t, Rejected)
    else if |new'| < 12 || new' == "ChangeMe" || new' == current then (t, Rejected)
    else if !saves then (t, Unavailable)
    else (t.(password := new', stored := true, sessions := NewSession(map[], token, now, victim)), SignedIn(token))
  }
}
