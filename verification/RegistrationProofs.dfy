/** Single use of challenges and activation tokens, and what a signed document is worth. */
module RegistrationProofs {
  import opened Prelude
  import opened RegistrationData
  import opened RegistrationSpec
  import opened RegistrationFrames
  import opened RegistrationInvariant
  import opened RegistrationRuns

  // ---------------------------------------------------------------- challenges

  /** The request carries a proof made for challenge `c`. */
  ghost predicate Names(request: Request, c: Id) {
    (request.Verify? || request.Activate?) && request.proof.challenge == c
  }

  ghost predicate Spent(db: Db, c: Id) {
    c in db.challenges && db.challenges[c].usedAt.Some?
  }

  const REPLAYED: Outcome := Rejected(401, "INVALID_OR_REPLAYED_CHALLENGE")

  lemma SpentAnswer(cfg: Settings, db: Db, now: Time, request: Request, c: Id)
    requires Spent(db, c) && Names(request, c)
    ensures Step(cfg, db, now, request) == Result(db, REPLAYED)
  {
    hide Constraints, Commit, Authorize, ActivatingToken;
  }

  /** A live challenge is spent by a request that names it exactly when the request is answered or its rejection
      is recorded; a rolled back request leaves the challenge fresh. */
  lemma OutcomeSpends(cfg: Settings, db: Db, now: Time, request: Request, c: Id)
    requires Names(request, c) && c in db.challenges
    requires db.challenges[c].usedAt.None? && db.challenges[c].expiresAt > now
    ensures var r := Step(cfg, db, now, request);
            Spent(r.db, c) <==> r.outcome.Ok? || r.outcome.Rejected?
  {
    hide Constraints, Commit, IdentityStatus, Authorize, Consume, ActivatingToken;
    var purpose := if request.Verify? then Authenticating else Activating;
    var used := Consume(db, now, request.proof, purpose);
    ConsumeSpends(db, now, request.proof, purpose);
    if used.Accepted? {
      var d, i, k := used.device, used.installation, used.key;
      if request.Verify? {
        AuthorizeFrame(db, used.db, cfg, now, d, i, k, request.freshSession);
        AuthorizeKinds(db, used.db, cfg, now, d, i, k, request.freshSession);
      } else {
        TokenSpends(db, used.db, cfg, now, request.token, d, i, k, request.freshSession, c);
      }
    }
  }

  lemma ConsumeSpends(db: Db, now: Time, proof: Proof, purpose: Purpose)
    requires proof.challenge in db.challenges
    requires db.challenges[proof.challenge].usedAt.None? && db.challenges[proof.challenge].expiresAt > now
    ensures var r := Consume(db, now, proof, purpose);
            && (r.Denied? ==> (Spent(r.result.db, proof.challenge) <==> r.result.outcome.Rejected?) && !r.result.outcome.Ok?)
            && (r.Accepted? ==> Spent(r.db, proof.challenge))
  {
    hide Constraints, Commit, Use;
    UsedUp(db, now, proof.challenge);
  }

  lemma UsedUp(db: Db, now: Time, c: Id)
    requires c in db.challenges
    ensures Spent(Use(db, now, c), c) && Use(db, now, c).devices == db.devices && Use(db, now, c).keys == db.keys
    ensures Use(db, now, c).installations == db.installations
    ensures forall d | d in db.challenges && d != c :: Spent(Use(db, now, c), d) <==> Spent(db, d)
  {
  }

  lemma TokenSpends(before: Db, db: Db, cfg: Settings, now: Time, t: Secret, d: Id, i: Id, k: PublicKey, drawn: Secret, c: Id)
    requires d in db.devices && i in db.installations && k in db.keys && Spent(db, c) && !Spent(before, c)
    ensures var r := ActivatingToken(before, db, cfg, now, t, d, i, k, drawn);
            Spent(r.db, c) <==> r.outcome.Ok? || r.outcome.Rejected?
  {
    hide Constraints, Commit, IdentityStatus, Authorize, OtherCurrent, ActiveCustomer, Usable, BoundTo, Bind;
    AuthorizeFrame(before, db, cfg, now, d, i, k, drawn);
    AuthorizeKinds(before, db, cfg, now, d, i, k, drawn);
    if TokenFits(db, now, t, d, i, k) && db.tokens[t].license in db.licenses {
      var bound := Bind(db, now, t, d, i, k, db.tokens[t].license);
      BindRows(db, now, t, d, i, k, db.tokens[t].license);
      AuthorizeFrame(before, bound, cfg, now, d, i, k, drawn);
      AuthorizeKinds(before, bound, cfg, now, d, i, k, drawn);
    }
  }

  /** No request makes a spent challenge fresh again. */
  lemma SpentStep(cfg: Settings, db: Db, now: Time, request: Request, c: Id)
    requires Spent(db, c)
    ensures Spent(Step(cfg, db, now, request).db, c)
  {
    hide Step;
    if Names(request, c) {
      SpentAnswer(cfg, db, now, request, c);
    } else if request.Verify? || request.Activate? || request.Heartbeat? {
      ProofChallenges(cfg, db, now, request, c);
    } else if request.AskChallenge? {
      ChallengeSpent(cfg, db, now, request, c);
    } else {
      SideTables(cfg, db, now, request);
    }
  }

  lemma ChallengeSpent(cfg: Settings, db: Db, now: Time, request: Request, c: Id)
    requires Spent(db, c) && request.AskChallenge?
    ensures Spent(Step(cfg, db, now, request).db, c)
  {
    hide Challenging;
    AskChallengeTables(db, cfg, now, request.serial, request.installation, request.publicKey, request.purpose,
                       request.freshChallenge, request.nonce);
  }

  lemma ProofChallenges(cfg: Settings, db: Db, now: Time, request: Request, c: Id)
    requires Spent(db, c) && !Names(request, c) && (request.Verify? || request.Activate? || request.Heartbeat?)
    ensures Spent(Step(cfg, db, now, request).db, c)
  {
    hide Verifying, Beating, ActivatingDevice;
    match request
    case Verify(proof, drawn) => VerifyChallenges(cfg, db, now, proof, drawn, c);
    case Activate(proof, token, drawn) => ActivateChallenges(cfg, db, now, proof, token, drawn, c);
    case Heartbeat(s, drawn) => HeartbeatFrame(cfg, db, now, s, drawn);
  }

  lemma VerifyChallenges(cfg: Settings, db: Db, now: Time, proof: Proof, drawn: Secret, c: Id)
    requires Spent(db, c) && proof.challenge != c
    ensures Spent(Verifying(db, cfg, now, proof, drawn).db, c)
  {
    hide Authorize, Consume, Use;
    ConsumeKeepsSpent(db, now, proof, Authenticating, c);
    var used := Consume(db, now, proof, Authenticating);
    if used.Accepted? {
      AuthorizeFrame(db, used.db, cfg, now, used.device, used.installation, used.key, drawn);
    }
  }

  lemma ActivateChallenges(cfg: Settings, db: Db, now: Time, proof: Proof, token: Secret, drawn: Secret, c: Id)
    requires Spent(db, c) && proof.challenge != c
    ensures Spent(ActivatingDevice(db, cfg, now, proof, token, drawn).db, c)
  {
    hide Consume, ActivatingToken, Use;
    ConsumeKeepsSpent(db, now, proof, Activating, c);
    var used := Consume(db, now, proof, Activating);
    if used.Accepted? {
      TokenKeepsSpent(db, used.db, cfg, now, token, used.device, used.installation, used.key, drawn, c);
    }
  }

  lemma ConsumeKeepsSpent(db: Db, now: Time, proof: Proof, purpose: Purpose, c: Id)
    requires Spent(db, c) && proof.challenge != c
    ensures var used := Consume(db, now, proof, purpose);
            && Spent(if used.Accepted? then used.db else used.result.db, c)
            && (used.Accepted? ==> && used.device in used.db.devices && used.installation in used.db.installations
                                   && used.key in used.db.keys)
  {
    hide Consume, Use;
    ConsumeFrame(db, now, proof, purpose);
    if proof.challenge in db.challenges {
      UsedUp(db, now, proof.challenge);
    }
  }

  lemma TokenKeepsSpent(before: Db, db: Db, cfg: Settings, now: Time, t: Secret, d: Id, i: Id, k: PublicKey,
                        drawn: Secret, c: Id)
    requires d in db.devices && i in db.installations && k in db.keys && Spent(db, c) && Spent(before, c)
    ensures Spent(ActivatingToken(before, db, cfg, now, t, d, i, k, drawn).db, c)
  {
    hide Authorize, OtherCurrent, ActiveCustomer, Usable, Bind, LicenseFor, BoundTo;
    AuthorizeFrame(before, db, cfg, now, d, i, k, drawn);
    if TokenFits(db, now, t, d, i, k) && db.tokens[t].license in db.licenses {
      BindRows(db, now, t, d, i, k, db.tokens[t].license);
      AuthorizeFrame(before, Bind(db, now, t, d, i, k, db.tokens[t].license), cfg, now, d, i, k, drawn);
    }
  }

  lemma {:induction false} StaysSpent(cfg: Settings, db: Db, trace: seq<Event>, a: nat, n: nat, c: Id)
    requires a <= n <= |trace| && Spent(StateAt(cfg, db, trace, a), c)
    ensures Spent(StateAt(cfg, db, trace, n), c)
  {
    hide Step;
    if a < n {
      StaysSpent(cfg, db, trace, a, n - 1, c);
      SpentStep(cfg, StateAt(cfg, db, trace, n - 1), trace[n - 1].now, trace[n - 1].request, c);
    }
  }

  /** Once a proof for a challenge was answered, with success or with a recorded rejection, every later proof for
      it is refused as a replay and changes nothing. */
  lemma ChallengeAnsweredOnce(cfg: Settings, db: Db, trace: seq<Event>, i: nat, j: nat, c: Id)
    requires i < j < |trace| && Names(trace[i].request, c) && Names(trace[j].request, c)
    requires c in StateAt(cfg, db, trace, i).challenges
    requires StateAt(cfg, db, trace, i).challenges[c].expiresAt > trace[i].now
    requires ResultAt(cfg, db, trace, i).outcome.Ok? || ResultAt(cfg, db, trace, i).outcome.Rejected?
    ensures ResultAt(cfg, db, trace, j) == Result(StateAt(cfg, db, trace, j), REPLAYED)
  {
    hide Step;
    var before := StateAt(cfg, db, trace, i);
    if before.challenges[c].usedAt.None? {
      OutcomeSpends(cfg, before, trace[i].now, trace[i].request, c);
    } else {
      SpentStep(cfg, before, trace[i].now, trace[i].request, c);
    }
    StaysSpent(cfg, db, trace, i + 1, j, c);
    SpentAnswer(cfg, StateAt(cfg, db, trace, j), trace[j].now, trace[j].request, c);
  }

  // ---------------------------------------------------------------- activation tokens

  ghost predicate TokenUsed(db: Db, t: Secret) {
    t in db.tokens && db.tokens[t].usedAt.Some?
  }

  lemma TokenUsedStep(cfg: Settings, db: Db, now: Time, request: Request, t: Secret)
    requires TokenUsed(db, t)
    ensures TokenUsed(Step(cfg, db, now, request).db, t)
  {
    hide Verifying, Beating, Challenging, ActivatingDevice, Enrolling, CreatingCustomer, ArchivingCustomer,
      RestoringCustomer, CreatingLicense, RenewingLicense, ControllingLicense, CreatingDevice, UpdatingDevice,
      ArchivingDevice, RestoringDevice, Approving, Marking, Reassigning;
    match request
    case Verify(proof, drawn) => VerifyFrame(cfg, db, now, proof, drawn);
    case Heartbeat(s, drawn) => HeartbeatFrame(cfg, db, now, s, drawn);
    case Activate(proof, token, drawn) => ActivateStep(cfg, db, now, proof, token, drawn);
    case AskChallenge(serial, i, pub, purpose, drawn, nonce) =>
      AskChallengeTables(db, cfg, now, serial, i, pub, purpose, drawn, nonce);
    case Enroll(serial, i, pub, drawn) => EnrollTokens(db, now, serial, i, pub, drawn);
    case ArchiveDevice(d) => ArchiveUsed(db, now, d, t);
    case Approve(d, i, pub, l, ttl, drawn) => ApproveUsed(db, now, d, i, pub, l, ttl, drawn, t);
    case Reassign(d) => ReassignUsed(db, now, d, t);
    case _ => TokensKept(cfg, db, now, request);
  }

  lemma TokensKept(cfg: Settings, db: Db, now: Time, request: Request)
    requires !request.Verify? && !request.Activate? && !request.Heartbeat? && !request.AskChallenge? && !request.Enroll?
    requires !request.ArchiveDevice? && !request.Approve? && !request.Reassign?
    ensures Step(cfg, db, now, request).db.tokens == db.tokens
  {
    hide Verifying, Beating, Challenging, ActivatingDevice, Enrolling, CreatingCustomer, ArchivingCustomer,
      RestoringCustomer, CreatingLicense, RenewingLicense, ControllingLicense, CreatingDevice, UpdatingDevice,
      ArchivingDevice, RestoringDevice, Approving, Marking, Reassigning;
    match request
    case CreateCustomer(c) => CustomerTables(db, now, c);
    case ArchiveCustomer(c) => CustomerTables(db, now, c);
    case RestoreCustomer(c) => CustomerTables(db, now, c);
    case CreateLicense(c, perpetual, max, until, drawn) => NewLicenseTables(db, now, c, perpetual, max, until, drawn);
    case RenewLicense(l, until) => LicenseTables(db, now, l, until, ResumeLicense);
    case ControlLicense(l, action) => LicenseTables(db, now, l, 0, action);
    case CreateDevice(serial, c, drawn) => NewDeviceTables(db, serial, c, drawn);
    case UpdateDevice(d, c) => DeviceTables(db, d, c, Pending);
    case RestoreDevice(d) => DeviceTables(db, d, None, Pending);
    case Suspend(d) => DeviceTables(db, d, None, Suspended);
    case Revoke(d) => DeviceTables(db, d, None, Revoked);
  }

  lemma EnrollTokens(db: Db, now: Time, serial: Serial, i: Id, pub: PublicKey, drawn: Id)
    ensures Enrolling(db, now, serial, i, pub, drawn).db.tokens == db.tokens
  {
    hide Constraints, Commit, IdentityStatus, Identify, DeviceBySerial;
  }

  lemma ArchiveUsed(db: Db, now: Time, d: Id, t: Secret)
    requires TokenUsed(db, t)
    ensures TokenUsed(ArchivingDevice(db, now, d).db, t)
  {
    hide Constraints, Commit, State, Stamp;
  }

  lemma ApproveUsed(db: Db, now: Time, d: Id, i: Id, pub: PublicKey, l: Id, ttl: nat, drawn: Secret, t: Secret)
    requires TokenUsed(db, t)
    ensures TokenUsed(Approving(db, now, d, i, pub, l, ttl, drawn).db, t)
  {
    hide Constraints, Commit, Usable, OtherCurrent, ActiveCustomer, NotEditable;
  }

  lemma ReassignUsed(db: Db, now: Time, d: Id, t: Secret)
    requires TokenUsed(db, t)
    ensures TokenUsed(Reassigning(db, now, d).db, t)
  {
    hide Constraints, Commit, Released, ReleasedKeys;
  }

  lemma {:induction false} StaysUsed(cfg: Settings, db: Db, trace: seq<Event>, a: nat, n: nat, t: Secret)
    requires a <= n <= |trace| && TokenUsed(StateAt(cfg, db, trace, a), t)
    ensures TokenUsed(StateAt(cfg, db, trace, n), t)
  {
    hide Step;
    if a < n {
      StaysUsed(cfg, db, trace, a, n - 1, t);
      TokenUsedStep(cfg, StateAt(cfg, db, trace, n - 1), trace[n - 1].now, trace[n - 1].request, t);
    }
  }

  /** A token changes devices, installations, keys, bindings or licenses at most once in a run. */
  lemma TokenBindsOnce(cfg: Settings, db: Db, trace: seq<Event>, i: nat, j: nat, t: Secret)
    requires i < j < |trace|
    requires trace[i].request.Activate? && trace[i].request.token == t
    requires trace[j].request.Activate? && trace[j].request.token == t
    requires !SameRows(StateAt(cfg, db, trace, i), StateAt(cfg, db, trace, i + 1))
    ensures SameRows(StateAt(cfg, db, trace, j), StateAt(cfg, db, trace, j + 1))
  {
    hide ActivatingDevice, Consume, Constraints, Commit, Enrolling, Challenging, Verifying, Beating, CreatingCustomer,
         ArchivingCustomer, RestoringCustomer, CreatingLicense, RenewingLicense, ControllingLicense, CreatingDevice, UpdatingDevice, ArchivingDevice, RestoringDevice, Approving,
         Marking, Reassigning;
    var a, b := trace[i].request, trace[j].request;
    ActivateStep(cfg, StateAt(cfg, db, trace, i), trace[i].now, a.proof, t, a.freshSession);
    StaysUsed(cfg, db, trace, i + 1, j, t);
    ActivateStep(cfg, StateAt(cfg, db, trace, j), trace[j].now, b.proof, t, b.freshSession);
  }

  /** When a retry with a used token is answered with the current authorization. */
  ghost predicate StillBound(db: Db, now: Time, t: Secret, d: Id, i: Id, k: PublicKey) {
    && TokenFits(db, now, t, d, i, k) && d in db.devices && i in db.installations
    && db.installations[i].current && db.devices[d].status == Active
    && d in db.bindings && db.bindings[d] == db.tokens[t].license
  }

  /** A retry with a used token and a fresh proof succeeds exactly while the original binding stands; it then
      answers what an authentication would answer, and in no case does it change a row. */
  lemma Retry(cfg: Settings, db: Db, now: Time, proof: Proof, t: Secret, drawn: Secret)
    requires Inv(db, now) && TokenUsed(db, t) && drawn !in db.sessions
    requires Consume(db, now, proof, Activating).Accepted?
    ensures var c := Consume(db, now, proof, Activating);
            var r := ActivatingDevice(db, cfg, now, proof, t, drawn);
            && SameRows(db, r.db)
            && (r.outcome.Ok? <==> StillBound(db, now, t, c.device, c.installation, c.key))
            && (r.outcome.Ok? ==> r == Authorize(db, c.db, cfg, now, c.device, c.installation, c.key, drawn))
            && (!r.outcome.Ok? ==> r.outcome.Rejected?)
  {
    hide Constraints, Commit, IdentityStatus, Authorize, OtherCurrent, ActiveCustomer, Usable;
    ActivateStep(cfg, db, now, proof, t, drawn);
    ConsumeSound(db, now, proof, Activating);
    var c := Consume(db, now, proof, Activating);
    AuthorizeSound(db, c.db, cfg, now, c.device, c.installation, c.key, drawn);
    AuthorizeKinds(db, c.db, cfg, now, c.device, c.installation, c.key, drawn);
    BoundLicense(c.db, now, c.device, c.installation, c.key);
  }

  lemma BoundLicense(db: Db, now: Time, d: Id, i: Id, k: PublicKey)
    requires Inv(db, now) && d in db.devices && Belong(db.installations, db.keys, d, i, k)
    ensures db.keys[k].current == db.installations[i].current
    ensures db.devices[d].status == Active ==> d in db.bindings
    ensures LicenseFor(db, d) == if d in db.bindings then Some(db.bindings[d]) else None
  {
    assert StatusFits(db.devices[d], d in db.bindings.Keys);
    if d in db.bindings {
      assert db.bindings[d] in db.licenses.Keys;
    }
  }

  // ---------------------------------------------------------------- signed documents

  /** The server holds this identity ACTIVE at `now`, under a usable license of a customer that is not archived. */
  ghost predicate HeldActive(db: Db, now: Time, d: Id, i: Id, k: PublicKey, l: Id) {
    && d in db.devices && Belong(db.installations, db.keys, d, i, k)
    && State(db, now, d) == Active && db.installations[i].current && db.keys[k].current
    && d in db.bindings && db.bindings[d] == l && l in db.licenses && Usable(db.licenses[l], now)
    && ActiveCustomer(db, db.licenses[l].customer)
  }

  /** The document states device, identity, license and the moment, and ends with the grace time or with the license,
      whichever comes first. */
  ghost predicate DocumentIs(cfg: Settings, p: Payload, d: Id, serial: Serial, i: Id, k: PublicKey, l: Id, lic: License,
                             now: Time)
  {
    && p.version == 1 && p.audience == cfg.audience && p.device == d && p.serial == serial && p.installation == i
    && p.key == k && p.license == l && p.status == Active && p.issuedAt == Seconds(now)
    && (lic.expiresAt.None? || now + cfg.graceSeconds * SECOND <= lic.expiresAt.value
        ==> p.expiresAt == Seconds(now + cfg.graceSeconds * SECOND))
    && (lic.expiresAt.Some? && lic.expiresAt.value <= now + cfg.graceSeconds * SECOND
        ==> p.expiresAt == Seconds(lic.expiresAt.value))
  }

  ghost predicate SessionIs(s: Session, d: Id, i: Id, k: PublicKey, expires: Time) {
    s.device == d && s.installation == i && s.key == k && s.expiresAt == expires
  }

  /** What a document claims, against the state of the server at its signing. */
  ghost predicate Truthful(cfg: Settings, db: Db, now: Time, p: Payload) {
    && HeldActive(db, now, p.device, p.installation, p.key, p.license)
    && DocumentIs(cfg, p, p.device, db.devices[p.device].serial, p.installation, p.key, p.license, db.licenses[p.license],
                  now)
  }

  /** The request is answered with document `p`, or `p` becomes a signed document that it was not before. */
  ghost predicate Signs(db: Db, r: Result, p: Payload) {
    || (r.outcome.Ok? && r.outcome.reply.Authorized? && r.outcome.reply.document == Some(p))
    || (p !in db.issued && p in r.db.issued)
  }

  /** The reply carries `p`, `p` is signed and true of the state the request leaves, and there is a session for it. */
  ghost predicate Vouched(cfg: Settings, r: Result, now: Time, p: Payload) {
    && r.outcome == Ok(Authorized(p.device, Active, Some(p))) && p in r.db.issued && Truthful(cfg, r.db, now, p)
    && exists s :: s in r.db.sessions && SessionIs(r.db.sessions[s], p.device, p.installation, p.key,
                                                   now + cfg.sessionSeconds * SECOND)
  }

  lemma AuthorizeTruthful(before: Db, db: Db, cfg: Settings, now: Time, d: Id, i: Id, k: PublicKey, drawn: Secret,
                          p: Payload)
    requires Inv(db, now) && d in db.devices && Belong(db.installations, db.keys, d, i, k) && db.issued == before.issued
    requires Signs(before, Authorize(before, db, cfg, now, d, i, k, drawn), p)
    ensures Vouched(cfg, Authorize(before, db, cfg, now, d, i, k, drawn), now, p)
  {
    hide Constraints, Commit;
    BoundLicense(db, now, d, i, k);
    assert IdentityStatus(db, now, d, i, k) == Active;
    assert State(db, now, d) == Active;
    LicensedCustomer(db, now, db.bindings[d]);
    var r := Authorize(before, db, cfg, now, d, i, k, drawn);
    assert drawn in r.db.sessions && SessionIs(r.db.sessions[drawn], d, i, k, now + cfg.sessionSeconds * SECOND);
  }

  lemma LicensedCustomer(db: Db, now: Time, l: Id)
    requires Inv(db, now) && l in db.licenses && Usable(db.licenses[l], now)
    ensures ActiveCustomer(db, db.licenses[l].customer)
  {
    assert db.licenses[l].customer in db.customers.Keys;
  }

  /** Every document handed out, also one equal to an earlier one, is true of the server right then, and every document
      that gets signed is handed out. */
  lemma SignedTruthful(cfg: Settings, db: Db, now: Time, request: Request, p: Payload)
    requires Inv(db, now) && Signs(db, Step(cfg, db, now, request), p)
    ensures Vouched(cfg, Step(cfg, db, now, request), now, p)
  {
    hide Vouched, Inv, Verifying, ActivatingDevice, Beating, Challenging, Enrolling, CreatingCustomer,
      ArchivingCustomer, RestoringCustomer, CreatingLicense, RenewingLicense, ControllingLicense, CreatingDevice,
      UpdatingDevice, ArchivingDevice, RestoringDevice, Approving, Marking, Reassigning;
    match request
    case Verify(proof, drawn) => VerifyTruthful(cfg, db, now, proof, drawn, p);
    case Activate(proof, t, drawn) => ActivateTruthful(cfg, db, now, proof, t, drawn, p);
    case Heartbeat(s, drawn) => HeartbeatTruthful(cfg, db, now, s, drawn, p);
    case AskChallenge(serial, i, pub, purpose, drawn, nonce) =>
      AskChallengeTables(db, cfg, now, serial, i, pub, purpose, drawn, nonce);
      AskChallengeReply(db, cfg, now, serial, i, pub, purpose, drawn, nonce);
    case _ =>
      SideTables(cfg, db, now, request);
      SideReplies(cfg, db, now, request);
  }

  lemma AskChallengeReply(db: Db, cfg: Settings, now: Time, serial: Serial, i: Id, pub: PublicKey, purpose: Purpose,
                          drawn: Id, nonce: string)
    ensures var o := Challenging(db, cfg, now, serial, i, pub, purpose, drawn, nonce).outcome;
            o.Ok? ==> !o.reply.Authorized?
  {
    hide Constraints, Commit;
  }

  lemma EnrollReply(db: Db, now: Time, serial: Serial, i: Id, pub: PublicKey, drawn: Id)
    ensures var o := Enrolling(db, now, serial, i, pub, drawn).outcome; o.Ok? ==> !o.reply.Authorized?
  {
    hide Constraints, Commit, IdentityStatus, DeviceBySerial;
  }

  lemma CustomerReplies(db: Db, now: Time, c: Id)
    ensures var o := CreatingCustomer(db, c).outcome; o.Ok? ==> o.reply == Done
    ensures var o := ArchivingCustomer(db, now, c).outcome; o.Ok? ==> o.reply == Done
    ensures var o := RestoringCustomer(db, c).outcome; o.Ok? ==> o.reply == Done
  {
    hide Constraints, Commit, HasUsableLicense, HasLiveDevice, Stamp;
  }

  lemma LicenseReplies(db: Db, now: Time, l: Id, until: Time, action: LicenseAction)
    ensures var o := RenewingLicense(db, now, l, until).outcome; o.Ok? ==> o.reply == Done
    ensures var o := ControllingLicense(db, l, action).outcome; o.Ok? ==> o.reply == Done
  {
    hide Constraints, Commit, ActiveCustomer;
  }

  lemma NewLicenseReply(db: Db, now: Time, c: Id, perpetual: bool, max: nat, until: Option<Time>, drawn: Id)
    ensures var o := CreatingLicense(db, now, c, perpetual, max, until, drawn).outcome; o.Ok? ==> o.reply == Done
  {
    hide Constraints, Commit, ActiveCustomer;
  }

  lemma DeviceReplies(db: Db, now: Time, d: Id, c: Option<Id>, status: Status)
    ensures var o := UpdatingDevice(db, d, c).outcome; o.Ok? ==> o.reply == Done
    ensures var o := RestoringDevice(db, d).outcome; o.Ok? ==> o.reply == Done
    ensures var o := Marking(db, d, status).outcome; o.Ok? ==> o.reply == Done
    ensures var o := ArchivingDevice(db, now, d).outcome; o.Ok? ==> o.reply == Done
    ensures var o := Reassigning(db, now, d).outcome; o.Ok? ==> o.reply == Done
  {
    hide Constraints, Commit, ActiveCustomer, LicenseFor, State, Stamp, Voided, Release;
  }

  lemma NewDeviceReply(db: Db, serial: Serial, c: Option<Id>, drawn: Id)
    ensures var o := CreatingDevice(db, serial, c, drawn).outcome; o.Ok? ==> o.reply == Done
  {
    hide Constraints, Commit, ActiveCustomer, DeviceBySerial;
  }

  lemma ApproveReply(db: Db, now: Time, d: Id, i: Id, pub: PublicKey, l: Id, ttl: nat, drawn: Secret)
    ensures var o := Approving(db, now, d, i, pub, l, ttl, drawn).outcome; o.Ok? ==> !o.reply.Authorized?
  {
    hide Constraints, Commit, ActiveCustomer, Usable, OtherCurrent;
  }

  /** Only proofs and heartbeats are answered with a status and a document. */
  lemma SideReplies(cfg: Settings, db: Db, now: Time, request: Request)
    requires !request.Verify? && !request.Activate? && !request.Heartbeat? && !request.AskChallenge?
    ensures var o := Step(cfg, db, now, request).outcome; o.Ok? ==> !o.reply.Authorized?
  {
    hide Enrolling, CreatingCustomer, ArchivingCustomer, RestoringCustomer, CreatingLicense, RenewingLicense,
      ControllingLicense, CreatingDevice, UpdatingDevice, ArchivingDevice, RestoringDevice, Approving, Marking,
      Reassigning;
    match request
    case Enroll(serial, i, pub, drawn) => EnrollReply(db, now, serial, i, pub, drawn);
    case CreateCustomer(c) => CustomerReplies(db, now, c);
    case ArchiveCustomer(c) => CustomerReplies(db, now, c);
    case RestoreCustomer(c) => CustomerReplies(db, now, c);
    case CreateLicense(c, perpetual, max, until, drawn) => NewLicenseReply(db, now, c, perpetual, max, until, drawn);
    case RenewLicense(l, until) => LicenseReplies(db, now, l, until, ResumeLicense);
    case ControlLicense(l, action) => LicenseReplies(db, now, l, 0, action);
    case CreateDevice(serial, c, drawn) => NewDeviceReply(db, serial, c, drawn);
    case UpdateDevice(d, c) => DeviceReplies(db, now, d, c, Pending);
    case ArchiveDevice(d) => DeviceReplies(db, now, d, None, Pending);
    case RestoreDevice(d) => DeviceReplies(db, now, d, None, Pending);
    case Approve(d, i, pub, l, ttl, drawn) => ApproveReply(db, now, d, i, pub, l, ttl, drawn);
    case Suspend(d) => DeviceReplies(db, now, d, None, Suspended);
    case Revoke(d) => DeviceReplies(db, now, d, None, Revoked);
    case Reassign(d) => DeviceReplies(db, now, d, None, Pending);
  }

  lemma VerifyTruthful(cfg: Settings, db: Db, now: Time, proof: Proof, drawn: Secret, p: Payload)
    requires Inv(db, now) && Signs(db, Verifying(db, cfg, now, proof, drawn), p)
    ensures Vouched(cfg, Verifying(db, cfg, now, proof, drawn), now, p)
  {
    hide Inv, Authorize, Truthful;
    ConsumeSound(db, now, proof, Authenticating);
    var c := Consume(db, now, proof, Authenticating);
    if c.Accepted? {
      AuthorizeTruthful(db, c.db, cfg, now, c.device, c.installation, c.key, drawn, p);
    }
  }

  lemma HeartbeatTruthful(cfg: Settings, db: Db, now: Time, s: Secret, drawn: Secret, p: Payload)
    requires Inv(db, now) && Signs(db, Beating(db, cfg, now, s, drawn), p)
    ensures Vouched(cfg, Beating(db, cfg, now, s, drawn), now, p)
  {
    hide Constraints, Commit, IdentityStatus, Authorize, Truthful;
    var session := db.sessions[s];
    assert Belong(db.installations, db.keys, session.device, session.installation, session.key);
    AuthorizeTruthful(db, db, cfg, now, session.device, session.installation, session.key, drawn, p);
  }

  lemma TokenTruthful(before: Db, db: Db, cfg: Settings, now: Time, t: Secret, d: Id, i: Id, k: PublicKey,
                      drawn: Secret, p: Payload)
    requires Inv(db, now) && d in db.devices && Belong(db.installations, db.keys, d, i, k) && db.issued == before.issued
    requires Signs(before, ActivatingToken(before, db, cfg, now, t, d, i, k, drawn), p)
    ensures Vouched(cfg, ActivatingToken(before, db, cfg, now, t, d, i, k, drawn), now, p)
  {
    hide Authorize, Truthful, Usable, OtherCurrent, ActiveCustomer, Inv;
    var token := db.tokens[t];
    if token.usedAt.Some? {
      AuthorizeTruthful(before, db, cfg, now, d, i, k, drawn, p);
    } else {
      NotArchived(db, now, d);
      BindKeeps(db, now, t, d, i, k, token.license);
      AuthorizeTruthful(before, Bind(db, now, t, d, i, k, token.license), cfg, now, d, i, k, drawn, p);
    }
  }

  lemma ActivateTruthful(cfg: Settings, db: Db, now: Time, proof: Proof, t: Secret, drawn: Secret, p: Payload)
    requires Inv(db, now) && Signs(db, ActivatingDevice(db, cfg, now, proof, t, drawn), p)
    ensures Vouched(cfg, ActivatingDevice(db, cfg, now, proof, t, drawn), now, p)
  {
    hide ActivatingToken, Truthful, Inv;
    ConsumeSound(db, now, proof, Activating);
    var c := Consume(db, now, proof, Activating);
    if c.Accepted? {
      TokenTruthful(db, c.db, cfg, now, t, c.device, c.installation, c.key, drawn, p);
    }
  }

  lemma NotArchived(db: Db, now: Time, d: Id)
    requires Inv(db, now) && d in db.devices && db.devices[d].status != Revoked
    ensures db.devices[d].archivedAt.None?
  {
    assert StatusFits(db.devices[d], d in db.bindings.Keys);
  }

  /** In every run from the empty database, every document in any reply speaks of a device held ACTIVE under a usable
      license of a customer that is not archived. */
  lemma RepliesTruthful(cfg: Settings, start: Time, trace: seq<Event>, n: nat, p: Payload)
    requires Ordered(start, trace) && n < |trace|
    requires var o := ResultAt(cfg, EMPTY, trace, n).outcome;
             o.Ok? && o.reply.Authorized? && o.reply.document == Some(p)
    ensures Truthful(cfg, StateAt(cfg, EMPTY, trace, n + 1), trace[n].now, p)
  {
    hide Inv, Step, Truthful;
    InitInv(start);
    ReachableInv(cfg, EMPTY, start, trace, n);
    Later(StateAt(cfg, EMPTY, trace, n), TimeAt(start, trace, n), trace[n].now);
    SignedTruthful(cfg, StateAt(cfg, EMPTY, trace, n), trace[n].now, trace[n].request, p);
  }
}
