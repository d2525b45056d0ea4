/** The device agent (device-registration/client.py): which documents it accepts and what one `synchronize`
    does to its authorization cache. The network is not trusted: every answer is an arbitrary value. */
module AgentSpec {
  import opened Prelude
  import opened RegistrationData

  const AUDIENCE := "kdx-infrabox-registration"

  /** What the agent keeps of itself; the private key never appears. */
  datatype Identity = Identity(serial: Serial, installation: Id, key: PublicKey)

  /** `authorization.json`: absent, a record of a denial, or an accepted document. */
  datatype Cache =
    | Absent
    | DeniedAt(clock: int)
    | Holding(document: Payload, device: Id, clock: int)

  /** How one POST ends. `Refuses` is every way of being denied by something reachable: an HTTP error, a TLS
      failure, an answer that does not parse. `Raises` is an exception that nothing handles, as when the connection
      breaks inside the body of an answer. */
  datatype Answer<+T> = Replies(value: T) | Refuses(reason: string) | Unreachable | Raises

  datatype EnrollReply = EnrollReply(device: Id, installation: Id)

  datatype ChallengeReply = ChallengeReply(challenge: Id, message: Message)

  datatype ProofReply = ProofReply(device: Id, status: Status, document: Option<Payload>)

  /** One run of `synchronize`: its three clock readings in order, whether it was given an activation token,
      and what the network answered. */
  datatype Attempt = Attempt(start: Time, proving: Time, checking: Time, hasToken: bool,
                             enroll: Answer<EnrollReply>, challenge: Answer<ChallengeReply>, proof: Answer<ProofReply>)

  datatype Mode = Online | Offline | OfflineGrace | Aborted

  /** The part of `status.json` that says whether and why the device is authorized; an aborted sync writes none. */
  datatype Report = Report(authorized: bool, mode: Mode, error: string, document: Option<Payload>)

  const NOTHING := Report(false, Aborted, "", None)

  function LastClock(cache: Cache): int {
    match cache
    case Absent => 0
    case DeniedAt(clock) => clock
    case Holding(_, _, clock) => clock
  }

  /** `verify_document`: signed by the server, about this device, and in time by a clock that has not gone back. */
  predicate Accepts(issued: set<Payload>, me: Identity, p: Payload, device: Id, lastClock: int, tick: int) {
    && p in issued
    && p.version == 1 && p.audience == AUDIENCE && p.status == Active
    && p.serial == me.serial && p.installation == me.installation && p.key == me.key && p.device == device
    && p.issuedAt <= tick + 30 && tick < p.expiresAt
    && p.expiresAt - p.issuedAt <= 604800
    && tick >= lastClock
  }

  /** `prove` signs only the protocol, identity and purpose it expects, live and with a long enough nonce. */
  predicate Signable(me: Identity, c: ChallengeReply, purpose: Purpose, tick: int) {
    && c.message.audience == AUDIENCE && c.message.version == 1 && c.message.purpose == purpose
    && c.message.serial == me.serial && c.message.installation == me.installation && c.message.key == me.key
    && c.message.challenge == c.challenge
    && tick <= c.message.expiresAt <= tick + 300
    && |c.message.nonce| >= 32
  }

  function Denial(a: Attempt, reason: string): (Cache, Report) {
    (DeniedAt(Seconds(a.start)), Report(false, Online, reason, None))
  }

  function Fallback(issued: set<Payload>, me: Identity, cache: Cache, a: Attempt): (Cache, Report) {
    if !a.hasToken && cache.Holding? then
      if Accepts(issued, me, cache.document, cache.device, cache.clock, Seconds(a.checking)) then
        (cache.(clock := Seconds(a.start)), Report(true, OfflineGrace, "SERVER_UNREACHABLE", Some(cache.document)))
      else (cache, Report(false, Offline, "OFFLINE_AUTHORIZATION_INVALID_OR_EXPIRED", None))
    else (cache, Report(false, Offline, "SERVER_UNREACHABLE", None))
  }

  /** What the answers amount to: the document the server finally sent, a refusal, or silence. */
  datatype Verdict =
    | Granted(document: Payload, device: Id)
    | NotActive
    | Denied(reason: string)
    | Silent
    | Escaped

  function Judge(issued: set<Payload>, me: Identity, lastClock: int, a: Attempt): Verdict {
    match a.enroll
    case Raises => Escaped
    case Unreachable => Silent
    case Refuses(reason) => Denied(reason)
    case Replies(e) =>
      if e.installation != me.installation then Denied("INVALID_ENROLLMENT_RESPONSE")
      else
        match a.challenge
        case Raises => Escaped
        case Unreachable => Silent
        case Refuses(reason) => Denied(reason)
        case Replies(c) =>
          if !Signable(me, c, if a.hasToken then Activating else Authenticating, Seconds(a.proving)) then
            Denied("INVALID_SERVER_CHALLENGE")
          else
            match a.proof
            case Raises => Escaped
            case Unreachable => Silent
            case Refuses(reason) => Denied(reason)
            case Replies(p) =>
              if p.device != e.device then Denied("INVALID_DEVICE_BINDING")
              else if p.status != Active then NotActive
              else if p.document.None? then Denied("INVALID_SERVER_RESPONSE")
              else if p.document.value !in issued then Denied("INVALID_SERVER_RESPONSE")
              else if Accepts(issued, me, p.document.value, e.device, lastClock, Seconds(a.checking)) then
                Granted(p.document.value, e.device)
              else Denied("INVALID_AUTHORIZATION_DOCUMENT")
  }

  /** `synchronize`: the new cache and the report. */
  function Sync(issued: set<Payload>, me: Identity, cache: Cache, a: Attempt): (Cache, Report) {
    match Judge(issued, me, LastClock(cache), a)
    case Granted(document, device) =>
      (Holding(document, device, Seconds(a.start)), Report(true, Online, "", Some(document)))
    case NotActive => (DeniedAt(Seconds(a.start)), Report(false, Online, "", None))
    case Denied(reason) => Denial(a, reason)
    case Silent => Fallback(issued, me, cache, a)
    case Escaped => (cache, NOTHING)
  }
}
