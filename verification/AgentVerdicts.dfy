/** Exactly which answers of the network authorize a sync, which make it fall back to the cached document, and which
    erase that document. */
module AgentVerdicts {
  import opened Prelude
  import opened RegistrationData
  import opened AgentSpec

  /** The server enrolled this installation. */
  ghost predicate EnrollmentFits(me: Identity, a: Attempt) {
    a.enroll.Replies? && a.enroll.value.installation == me.installation
  }

  /** The challenge is one the agent signs: about itself, for an activation exactly if it was given a token, live for at
      most five minutes more, with a nonce of at least 32 characters. */
  ghost predicate ChallengeFits(me: Identity, a: Attempt) {
    && a.challenge.Replies?
    && var m, tick := a.challenge.value.message, Seconds(a.proving);
       && m.version == 1 && m.audience == "kdx-infrabox-registration" && m.challenge == a.challenge.value.challenge
       && m.serial == me.serial && m.installation == me.installation && m.key == me.key
       && (m.purpose == Activating <==> a.hasToken)
       && tick <= m.expiresAt && m.expiresAt - tick <= 300 && 32 <= |m.nonce|
  }

  /** The document is signed, about this device, ACTIVE, issued at most 30 seconds ahead, not over, good for at most a
      week, and the clock has not gone back. */
  ghost predicate DocumentFits(issued: set<Payload>, me: Identity, p: Payload, device: Id, lastClock: int, tick: int) {
    && p in issued && p.version == 1 && p.audience == "kdx-infrabox-registration" && p.status == Active
    && p.serial == me.serial && p.installation == me.installation && p.key == me.key && p.device == device
    && p.issuedAt - tick <= 30 && tick < p.expiresAt && p.expiresAt - p.issuedAt <= 7 * 24 * 3600
    && lastClock <= tick
  }

  /** The server answered the proof for the enrolled device with ACTIVE and a document that fits. */
  ghost predicate ProofFits(issued: set<Payload>, me: Identity, cache: Cache, a: Attempt)
    requires a.enroll.Replies?
  {
    && a.proof.Replies? && a.proof.value.device == a.enroll.value.device && a.proof.value.status == Active
    && a.proof.value.document.Some?
    && DocumentFits(issued, me, a.proof.value.document.value, a.enroll.value.device, LastClock(cache), Seconds(a.checking))
  }

  /** A sync is authorized online exactly if all three answers fit; it then holds the document that came. */
  lemma OnlineExactly(issued: set<Payload>, me: Identity, cache: Cache, a: Attempt)
    ensures var (after, report) := Sync(issued, me, cache, a);
            && (report.authorized && report.mode == Online
                <==> EnrollmentFits(me, a) && ChallengeFits(me, a) && ProofFits(issued, me, cache, a))
            && (report.authorized && report.mode == Online ==>
                 && report.document == a.proof.value.document && report.error == ""
                 && after == Holding(a.proof.value.document.value, a.enroll.value.device, Seconds(a.start)))
  {
  }

  /** One of the three posts did not reach the server, those before it having been answered as they should. */
  ghost predicate Unreached(me: Identity, a: Attempt) {
    || a.enroll.Unreachable?
    || (EnrollmentFits(me, a) && a.challenge.Unreachable?)
    || (EnrollmentFits(me, a) && ChallengeFits(me, a) && a.proof.Unreachable?)
  }

  /** Likewise for an exception that nothing handles. */
  ghost predicate BrokenOff(me: Identity, a: Attempt) {
    || a.enroll.Raises?
    || (EnrollmentFits(me, a) && a.challenge.Raises?)
    || (EnrollmentFits(me, a) && ChallengeFits(me, a) && a.proof.Raises?)
  }

  /** Without the server the cached document decides, and only if no token was given; it is kept in any case. */
  lemma OfflineExactly(issued: set<Payload>, me: Identity, cache: Cache, a: Attempt)
    requires Unreached(me, a)
    ensures var (after, report) := Sync(issued, me, cache, a);
            && (report.authorized <==>
                 && !a.hasToken && cache.Holding?
                 && DocumentFits(issued, me, cache.document, cache.device, cache.clock, Seconds(a.checking)))
            && (report.authorized ==> && report.mode == OfflineGrace && report.document == Some(cache.document)
                                      && after == Holding(cache.document, cache.device, Seconds(a.start)))
            && (!report.authorized ==> after == cache && report.mode == Offline && report.document.None?)
            && report.error == (if !a.hasToken && cache.Holding? && !report.authorized
                                then "OFFLINE_AUTHORIZATION_INVALID_OR_EXPIRED" else "SERVER_UNREACHABLE")
  {
  }

  lemma BreakingOff(issued: set<Payload>, me: Identity, cache: Cache, a: Attempt)
    requires BrokenOff(me, a)
    ensures Sync(issued, me, cache, a).0 == cache && Sync(issued, me, cache, a).1.mode == Aborted
    ensures !Sync(issued, me, cache, a).1.authorized
  {
  }

  /** Every other answer of the server erases the document: the agent stays out until it is authorized online again. */
  lemma DeniedExactly(issued: set<Payload>, me: Identity, cache: Cache, a: Attempt)
    requires !Unreached(me, a) && !BrokenOff(me, a)
    requires !(EnrollmentFits(me, a) && ChallengeFits(me, a) && ProofFits(issued, me, cache, a))
    ensures var (after, report) := Sync(issued, me, cache, a);
            && after == DeniedAt(Seconds(a.start)) && !report.authorized && report.mode == Online && report.document.None?
            && report.error == Reason(issued, me, cache, a)
  {
  }

  /** The first thing that was wrong. */
  ghost function Reason(issued: set<Payload>, me: Identity, cache: Cache, a: Attempt): string
    requires !Unreached(me, a) && !BrokenOff(me, a)
  {
    if a.enroll.Refuses? then a.enroll.reason
    else if !EnrollmentFits(me, a) then "INVALID_ENROLLMENT_RESPONSE"
    else if a.challenge.Refuses? then a.challenge.reason
    else if !ChallengeFits(me, a) then "INVALID_SERVER_CHALLENGE"
    else if a.proof.Refuses? then a.proof.reason
    else if a.proof.value.device != a.enroll.value.device then "INVALID_DEVICE_BINDING"
    else if a.proof.value.status != Active then ""
    else if a.proof.value.document.None? || a.proof.value.document.value !in issued then "INVALID_SERVER_RESPONSE"
    else "INVALID_AUTHORIZATION_DOCUMENT"
  }
}
