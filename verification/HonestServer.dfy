/** The agent and the real server together: if the answers a sync got are those the server gave to its three requests,
    and the server held the device ACTIVE, the sync is authorized. */
module HonestServer {
  import opened Prelude
  import opened RegistrationData
  import opened RegistrationSpec
  import opened RegistrationFrames
  import opened RegistrationInvariant
  import opened RegistrationProofs
  import opened RegistrationAccess
  import opened AgentSpec
  import opened AgentVerdicts
  import opened EndToEnd

  // ---------------------------------------------------------------- installations and keys keep their parents

  lemma EnrollParents(db: Db, now: Time, serial: Serial, i: Id, pub: PublicKey, drawn: Id)
    ensures var r := Enrolling(db, now, serial, i, pub, drawn).db;
            SameParents(db.installations, db.keys, r.installations, r.keys)
  {
    hide Constraints, Commit, IdentityStatus, DeviceBySerial, Identify, WithIdentity;
    if Identify(db, serial, i, pub).Unknown? {
      var found := DeviceBySerial(db, serial);
      IdentityParents(db, if found.Some? then found.value else drawn, found.None?, serial, i, pub);
    }
  }

  lemma IdentityParents(db: Db, d: Id, isNew: bool, serial: Serial, i: Id, pub: PublicKey)
    requires i !in db.installations && pub !in db.keys
    ensures var after := WithIdentity(db, d, isNew, serial, i, pub);
            SameParents(db.installations, db.keys, after.installations, after.keys)
  {
  }

  lemma ReassignParents(db: Db, now: Time, d: Id)
    ensures var r := Reassigning(db, now, d).db; SameParents(db.installations, db.keys, r.installations, r.keys)
  {
    hide Constraints, Voided;
  }

  lemma ActivateParents(cfg: Settings, db: Db, now: Time, proof: Proof, t: Secret, drawn: Secret)
    ensures var r := ActivatingDevice(db, cfg, now, proof, t, drawn).db;
            SameParents(db.installations, db.keys, r.installations, r.keys)
  {
    hide ActivatingDevice, TokenFits;
    ActivateStep(cfg, db, now, proof, t, drawn);
  }

  lemma OwnerRows(cfg: Settings, db: Db, now: Time, request: Request)
    requires AboutOwner(request)
    ensures var r := Step(cfg, db, now, request).db;
            r.devices == db.devices && r.installations == db.installations && r.keys == db.keys
  {
    hide CreatingCustomer, ArchivingCustomer, RestoringCustomer, CreatingLicense, RenewingLicense, ControllingLicense;
    match request
    case CreateCustomer(c) => CustomerTables(db, now, c);
    case ArchiveCustomer(c) => CustomerTables(db, now, c);
    case RestoreCustomer(c) => CustomerTables(db, now, c);
    case CreateLicense(c, perpetual, max, until, drawn) => NewLicenseTables(db, now, c, perpetual, max, until, drawn);
    case RenewLicense(l, until) => LicenseTables(db, now, l, until, ResumeLicense);
    case ControlLicense(l, action) => LicenseTables(db, now, l, 0, action);
  }

  predicate AboutDevice(request: Request) {
    || request.CreateDevice? || request.UpdateDevice? || request.RestoreDevice? || request.Suspend? || request.Revoke?
    || request.ArchiveDevice? || request.Approve?
  }

  lemma DeviceRows(cfg: Settings, db: Db, now: Time, request: Request)
    requires AboutDevice(request)
    ensures var r := Step(cfg, db, now, request).db; r.installations == db.installations && r.keys == db.keys
  {
    hide CreatingDevice, UpdatingDevice, ArchivingDevice, RestoringDevice, Approving, Marking;
    match request
    case CreateDevice(serial, c, drawn) => NewDeviceTables(db, serial, c, drawn);
    case UpdateDevice(d, c) => DeviceTables(db, d, c, Pending);
    case RestoreDevice(d) => DeviceTables(db, d, None, Pending);
    case Suspend(d) => DeviceTables(db, d, None, Suspended);
    case Revoke(d) => DeviceTables(db, d, None, Revoked);
    case ArchiveDevice(d) => ArchiveTables(db, now, d);
    case Approve(d, i, pub, l, ttl, drawn) => ApproveTables(db, now, d, i, pub, l, ttl, drawn);
  }

  lemma KeptParents(db: Db, after: Db)
    requires after.installations == db.installations && after.keys == db.keys
    ensures SameParents(db.installations, db.keys, after.installations, after.keys)
  {
  }

  /** No request moves an installation to another device or a key to another installation. */
  lemma StepParents(cfg: Settings, db: Db, now: Time, request: Request)
    ensures var r := Step(cfg, db, now, request).db; SameParents(db.installations, db.keys, r.installations, r.keys)
  {
    hide Enrolling, Reassigning, Verifying, ActivatingDevice, Beating, Challenging, SameParents;
    if AboutOwner(request) {
      hide Step;
      OwnerRows(cfg, db, now, request);
      KeptParents(db, Step(cfg, db, now, request).db);
    } else if AboutDevice(request) {
      hide Step;
      DeviceRows(cfg, db, now, request);
      KeptParents(db, Step(cfg, db, now, request).db);
    } else {
      match request
      case Enroll(serial, i, pub, drawn) => EnrollParents(db, now, serial, i, pub, drawn);
      case Activate(proof, t, drawn) => ActivateParents(cfg, db, now, proof, t, drawn);
      case Reassign(d) => ReassignParents(db, now, d);
      case AskChallenge(serial, i, pub, purpose, drawn, nonce) =>
        AskChallengeTables(db, cfg, now, serial, i, pub, purpose, drawn, nonce);
        KeptParents(db, Step(cfg, db, now, request).db);
      case Verify(proof, drawn) =>
        VerifyFrame(cfg, db, now, proof, drawn);
        KeptParents(db, Step(cfg, db, now, request).db);
      case Heartbeat(x, drawn) =>
        HeartbeatFrame(cfg, db, now, x, drawn);
        KeptParents(db, Step(cfg, db, now, request).db);
    }
  }

  ghost predicate SameSerials(before: map<Id, Device>, after: map<Id, Device>) {
    forall d | d in before :: d in after && after[d].serial == before[d].serial
  }

  lemma EnrollSerials(db: Db, now: Time, serial: Serial, i: Id, pub: PublicKey, drawn: Id)
    ensures SameSerials(db.devices, Enrolling(db, now, serial, i, pub, drawn).db.devices)
  {
    hide Constraints, Commit, IdentityStatus, Identify, DeviceBySerial, WithIdentity;
    var found := DeviceBySerial(db, serial);
    if found.Some? || drawn !in db.devices {
      IdentitySerials(db, if found.Some? then found.value else drawn, found.None?, serial, i, pub);
    }
  }

  lemma IdentitySerials(db: Db, d: Id, isNew: bool, serial: Serial, i: Id, pub: PublicKey)
    requires isNew ==> d !in db.devices
    ensures SameSerials(db.devices, WithIdentity(db, d, isNew, serial, i, pub).devices)
  {
  }

  lemma RowSerials(devices: map<Id, Device>, d: Id, row: Device)
    requires d in devices ==> row.serial == devices[d].serial
    ensures SameSerials(devices, devices[d := row])
  {
  }

  lemma NewSerials(db: Db, serial: Serial, c: Option<Id>, drawn: Id)
    ensures SameSerials(db.devices, CreatingDevice(db, serial, c, drawn).db.devices)
  {
    hide Constraints, Commit, ActiveCustomer, DeviceBySerial;
    if drawn !in db.devices {
      RowSerials(db.devices, drawn, Device(serial, None, Pending, c));
    }
  }

  lemma UpdateSerials(db: Db, d: Id, c: Option<Id>)
    ensures SameSerials(db.devices, UpdatingDevice(db, d, c).db.devices)
  {
    hide Constraints, Commit, ActiveCustomer, LicenseFor, SameSerials;
    KeptSerials(db.devices);
    if d in db.devices {
      RowSerials(db.devices, d, db.devices[d].(customer := c));
    }
  }

  lemma KeptSerials(devices: map<Id, Device>)
    ensures SameSerials(devices, devices)
  {
  }

  lemma MarkSerials(db: Db, d: Id, status: Status)
    ensures SameSerials(db.devices, Marking(db, d, status).db.devices)
    ensures SameSerials(db.devices, RestoringDevice(db, d).db.devices)
  {
    hide Constraints, Commit, SameSerials;
    KeptSerials(db.devices);
    if d in db.devices {
      RowSerials(db.devices, d, db.devices[d].(status := status));
      RowSerials(db.devices, d, db.devices[d].(archivedAt := None));
    }
  }

  lemma ArchiveSerials(db: Db, now: Time, d: Id)
    ensures SameSerials(db.devices, ArchivingDevice(db, now, d).db.devices)
    ensures SameSerials(db.devices, Reassigning(db, now, d).db.devices)
  {
    hide Constraints, Commit, State, Voided, Released, ReleasedKeys, SameSerials;
    KeptSerials(db.devices);
    if d in db.devices {
      RowSerials(db.devices, d, db.devices[d].(archivedAt := Stamp(db.devices[d].archivedAt, now), status := Revoked));
      RowSerials(db.devices, d, db.devices[d].(status := Pending, customer := None));
    }
  }

  lemma ApproveSerials(db: Db, now: Time, d: Id, i: Id, pub: PublicKey, l: Id, ttl: nat, drawn: Secret)
    ensures SameSerials(db.devices, Approving(db, now, d, i, pub, l, ttl, drawn).db.devices)
  {
    hide Constraints, Commit, ActiveCustomer, Usable, OtherCurrent, SameSerials;
    KeptSerials(db.devices);
    if d in db.devices {
      var status := if db.devices[d].status != Active then ActivationRequired else Active;
      RowSerials(db.devices, d, db.devices[d].(status := status));
    }
  }

  lemma ActivateSerials(cfg: Settings, db: Db, now: Time, proof: Proof, t: Secret, drawn: Secret)
    ensures SameSerials(db.devices, ActivatingDevice(db, cfg, now, proof, t, drawn).db.devices)
  {
    hide ActivatingDevice, TokenFits;
    ActivateStep(cfg, db, now, proof, t, drawn);
  }

  lemma DeviceStepSerials(cfg: Settings, db: Db, now: Time, request: Request)
    requires AboutDevice(request)
    ensures SameSerials(db.devices, Step(cfg, db, now, request).db.devices)
  {
    hide CreatingDevice, UpdatingDevice, ArchivingDevice, RestoringDevice, Approving, Marking, SameSerials;
    match request
    case CreateDevice(serial, c, drawn) => NewSerials(db, serial, c, drawn);
    case UpdateDevice(d, c) => UpdateSerials(db, d, c);
    case RestoreDevice(d) => MarkSerials(db, d, Pending);
    case Suspend(d) => MarkSerials(db, d, Suspended);
    case Revoke(d) => MarkSerials(db, d, Revoked);
    case ArchiveDevice(d) => ArchiveSerials(db, now, d);
    case Approve(d, i, pub, l, ttl, drawn) => ApproveSerials(db, now, d, i, pub, l, ttl, drawn);
  }

  /** No request changes the serial of a device. */
  lemma StepSerials(cfg: Settings, db: Db, now: Time, request: Request)
    ensures SameSerials(db.devices, Step(cfg, db, now, request).db.devices)
  {
    hide Enrolling, Reassigning, Verifying, ActivatingDevice, Beating, Challenging, SameSerials;
    KeptSerials(db.devices);
    if AboutOwner(request) {
      hide Step;
      OwnerRows(cfg, db, now, request);
    } else if AboutDevice(request) {
      hide Step;
      DeviceStepSerials(cfg, db, now, request);
    } else {
      match request
      case Enroll(serial, i, pub, drawn) => EnrollSerials(db, now, serial, i, pub, drawn);
      case Activate(proof, t, drawn) => ActivateSerials(cfg, db, now, proof, t, drawn);
      case Reassign(d) => ArchiveSerials(db, now, d);
      case AskChallenge(serial, i, pub, purpose, drawn, nonce) =>
        AskChallengeTables(db, cfg, now, serial, i, pub, purpose, drawn, nonce);
      case Verify(proof, drawn) => VerifyFrame(cfg, db, now, proof, drawn);
      case Heartbeat(x, drawn) => HeartbeatFrame(cfg, db, now, x, drawn);
    }
  }

  lemma {:induction false} StillSerial(cfg: Settings, me: Identity, trace: seq<Moment>, a: nat, n: nat, d: Id)
    requires a <= n <= |trace| && d in WorldAt(cfg, me, trace, a).db.devices
    ensures d in WorldAt(cfg, me, trace, n).db.devices
         && WorldAt(cfg, me, trace, n).db.devices[d].serial == WorldAt(cfg, me, trace, a).db.devices[d].serial
    decreases n
  {
    hide Step, Sync;
    if a < n {
      StillSerial(cfg, me, trace, a, n - 1, d);
      if trace[n - 1].action.Serve? {
        StepSerials(cfg, WorldAt(cfg, me, trace, n - 1).db, trace[n - 1].now, trace[n - 1].action.request);
      }
    }
  }

  lemma {:induction false} StillBelongs(cfg: Settings, me: Identity, trace: seq<Moment>, a: nat, n: nat, d: Id, i: Id,
                                        k: PublicKey)
    requires a <= n <= |trace|
    requires Belong(WorldAt(cfg, me, trace, a).db.installations, WorldAt(cfg, me, trace, a).db.keys, d, i, k)
    ensures Belong(WorldAt(cfg, me, trace, n).db.installations, WorldAt(cfg, me, trace, n).db.keys, d, i, k)
    decreases n
  {
    hide Step, Sync;
    if a < n {
      StillBelongs(cfg, me, trace, a, n - 1, d, i, k);
      if trace[n - 1].action.Serve? {
        StepParents(cfg, WorldAt(cfg, me, trace, n - 1).db, trace[n - 1].now, trace[n - 1].action.request);
      }
    }
  }

  // ---------------------------------------------------------------- what the replies say

  lemma EnrolledBelongs(cfg: Settings, db: Db, now: Time, serial: Serial, i: Id, pub: PublicKey, drawn: Id)
    requires Step(cfg, db, now, Enroll(serial, i, pub, drawn)).outcome.Ok?
    ensures var r := Step(cfg, db, now, Enroll(serial, i, pub, drawn));
            && r.outcome.reply.Enrolled? && r.outcome.reply.installation == i
            && Belong(r.db.installations, r.db.keys, r.outcome.reply.device, i, pub)
            && r.outcome.reply.device in r.db.devices && r.db.devices[r.outcome.reply.device].serial == serial
  {
    hide Constraints, IdentityStatus;
  }

  lemma AuthorizeReply(before: Db, db: Db, cfg: Settings, now: Time, d: Id, i: Id, k: PublicKey, drawn: Secret)
    requires d in db.devices && i in db.installations && k in db.keys
    ensures var o := Authorize(before, db, cfg, now, d, i, k, drawn).outcome;
            o.Ok? ==> && o.reply.Authorized? && o.reply.device == d
                      && (o.reply.status == Active <==> o.reply.document.Some?)
                      && (o.reply.document.Some? ==> NamesIdentity(o.reply.document.value, db.devices[d].serial, i, k))
    ensures Authorize(before, db, cfg, now, d, i, k, drawn).db.issued >= db.issued * before.issued
  {
    hide Constraints, IdentityStatus;
  }

  ghost predicate NamesIdentity(p: Payload, serial: Serial, i: Id, k: PublicKey) {
    p.serial == serial && p.installation == i && p.key == k
  }

  lemma BindSides(db: Db, now: Time, t: Secret, d: Id, i: Id, k: PublicKey, l: Id)
    requires t in db.tokens && d in db.devices && i in db.installations && k in db.keys && l in db.licenses
    ensures var after := Bind(db, now, t, d, i, k, l);
            && d in after.devices && i in after.installations && k in after.keys && after.issued == db.issued
            && after.devices[d].serial == db.devices[d].serial
  {
  }

  lemma TokenReply(before: Db, db: Db, cfg: Settings, now: Time, t: Secret, d: Id, i: Id, k: PublicKey, drawn: Secret)
    requires d in db.devices && i in db.installations && k in db.keys
    ensures var o := ActivatingToken(before, db, cfg, now, t, d, i, k, drawn).outcome;
            o.Ok? ==> && o.reply.Authorized? && o.reply.device == d
                      && (o.reply.status == Active <==> o.reply.document.Some?)
                      && (o.reply.document.Some? ==> NamesIdentity(o.reply.document.value, db.devices[d].serial, i, k))
    ensures ActivatingToken(before, db, cfg, now, t, d, i, k, drawn).db.issued >= db.issued * before.issued
  {
    hide Authorize, OtherCurrent, ActiveCustomer, Usable, Bind, BoundTo, NamesIdentity;
    AuthorizeReply(before, db, cfg, now, d, i, k, drawn);
    if TokenFits(db, now, t, d, i, k) && db.tokens[t].license in db.licenses {
      BindSides(db, now, t, d, i, k, db.tokens[t].license);
      AuthorizeReply(before, Bind(db, now, t, d, i, k, db.tokens[t].license), cfg, now, d, i, k, drawn);
    }
  }

  function ProofOf(request: Request): Proof
    requires request.Verify? || request.Activate?
  {
    request.proof
  }

  /** An answered proof was made with the key of the challenge, and the answer names the device of that key. */
  lemma ProofReplied(cfg: Settings, db: Db, now: Time, request: Request)
    requires Inv(db, now) && (request.Verify? || request.Activate?) && Step(cfg, db, now, request).outcome.Ok?
    ensures var o := Step(cfg, db, now, request).outcome;
            && o.reply.Authorized? && (o.reply.status == Active <==> o.reply.document.Some?)
            && GoodProof(db, now, ProofOf(request), if request.Verify? then Authenticating else Activating)
            && var k := ProofOf(request).signature.signer;
               && k in db.keys && db.keys[k].installation in db.installations
               && o.reply.device == db.installations[db.keys[k].installation].device && o.reply.device in db.devices
               && (o.reply.document.Some? ==> NamesIdentity(o.reply.document.value, db.devices[o.reply.device].serial,
                                                            db.keys[k].installation, k))
  {
    hide Inv, Consume, Authorize, ActivatingToken, Use, NamesIdentity;
    var purpose := if request.Verify? then Authenticating else Activating;
    AcceptedExactly(db, now, ProofOf(request), purpose);
    var used := Consume(db, now, ProofOf(request), purpose);
    if request.Verify? {
      AuthorizeReply(db, used.db, cfg, now, used.device, used.installation, used.key, request.freshSession);
    } else {
      TokenReply(db, used.db, cfg, now, request.token, used.device, used.installation, used.key, request.freshSession);
    }
  }

  /** What is signed stays signed. */
  lemma StepIssued(cfg: Settings, db: Db, now: Time, request: Request)
    ensures db.issued <= Step(cfg, db, now, request).db.issued
  {
    hide Enrolling, CreatingCustomer, ArchivingCustomer, RestoringCustomer, CreatingLicense, RenewingLicense,
         ControllingLicense, CreatingDevice, UpdatingDevice, ArchivingDevice, RestoringDevice, Approving, Marking, Reassigning,
         Challenging, Authorize, ActivatingToken, Consume, Use;
    match request
    case AskChallenge(serial, i, pub, purpose, drawn, nonce) =>
      AskChallengeTables(db, cfg, now, serial, i, pub, purpose, drawn, nonce);
    case Verify(proof, drawn) =>
      ConsumeIssued(db, now, proof, Authenticating);
      var used := Consume(db, now, proof, Authenticating);
      if used.Accepted? {
        AuthorizeReply(db, used.db, cfg, now, used.device, used.installation, used.key, drawn);
      }
    case Activate(proof, t, drawn) =>
      ConsumeIssued(db, now, proof, Activating);
      var used := Consume(db, now, proof, Activating);
      if used.Accepted? {
        TokenReply(db, used.db, cfg, now, t, used.device, used.installation, used.key, drawn);
      }
    case Heartbeat(s, drawn) =>
      if s in db.sessions && SessionLive(db, db.sessions[s]) {
        AuthorizeReply(db, db, cfg, now, db.sessions[s].device, db.sessions[s].installation, db.sessions[s].key, drawn);
      }
    case _ => SideTables(cfg, db, now, request);
  }

  lemma ConsumeIssued(db: Db, now: Time, proof: Proof, purpose: Purpose)
    ensures var used := Consume(db, now, proof, purpose);
            if used.Accepted?
            then && used.db.issued == db.issued && used.device in used.db.devices
                 && used.installation in used.db.installations && used.key in used.db.keys
            else used.result.db.issued == db.issued
  {
  }

  lemma {:induction false} StillIssued(cfg: Settings, me: Identity, trace: seq<Moment>, a: nat, n: nat, p: Payload)
    requires a <= n <= |trace| && p in WorldAt(cfg, me, trace, a).db.issued
    ensures p in WorldAt(cfg, me, trace, n).db.issued
    decreases n
  {
    hide Step, Sync;
    if a < n {
      StillIssued(cfg, me, trace, a, n - 1, p);
      if trace[n - 1].action.Serve? {
        StepIssued(cfg, WorldAt(cfg, me, trace, n - 1).db, trace[n - 1].now, trace[n - 1].action.request);
      }
    }
  }

  // ---------------------------------------------------------------- the agent's clock

  lemma SyncClock(issued: set<Payload>, me: Identity, cache: Cache, a: Attempt)
    ensures LastClock(Sync(issued, me, cache, a).0) in {LastClock(cache), Seconds(a.start)}
  {
  }

  /** Every sync reads its clock in order. */
  ghost predicate InOrder(trace: seq<Moment>) {
    forall i | 0 <= i < |trace| && trace[i].action.Synchronize? ::
      trace[i].action.attempt.start <= trace[i].action.attempt.checking
  }

  /** Where the clock does not run backwards, no stored reading is ahead. */
  lemma {:induction false} ClockBehind(cfg: Settings, me: Identity, start: Time, trace: seq<Moment>, n: nat, now: Time)
    requires Ordered(start, trace) && InOrder(trace) && n <= |trace|
    requires forall i | 0 <= i < n :: trace[i].now <= now
    ensures LastClock(WorldAt(cfg, me, trace, n).cache) <= Seconds(now)
  {
    hide Step, Sync;
    if n > 0 {
      ClockBehind(cfg, me, start, trace, n - 1, now);
      if trace[n - 1].action.Synchronize? {
        var a := trace[n - 1].action.attempt;
        var before := WorldAt(cfg, me, trace, n - 1);
        SyncClock(before.db.issued, me, before.cache, a);
        SecondsOrder(a.start, now);
      }
    }
  }

  // ---------------------------------------------------------------- the three answers

  ghost function OutcomeAt(cfg: Settings, me: Identity, trace: seq<Moment>, x: nat): Outcome
    requires x < |trace| && trace[x].action.Serve?
  {
    Step(cfg, WorldAt(cfg, me, trace, x).db, trace[x].now, trace[x].action.request).outcome
  }

  /** The server enrolled the agent at `x`, and the sync got that answer. */
  ghost predicate EnrolledAt(cfg: Settings, me: Identity, trace: seq<Moment>, x: nat, a: Attempt) {
    && x < |trace| && trace[x].action.Serve? && trace[x].action.request.Enroll?
    && var r := trace[x].action.request;
       && r.serial == me.serial && r.installation == me.installation && r.publicKey == me.key
       && OutcomeAt(cfg, me, trace, x).Ok? && OutcomeAt(cfg, me, trace, x).reply.Enrolled?
       && var reply := OutcomeAt(cfg, me, trace, x).reply;
          a.enroll == Replies(EnrollReply(reply.device, reply.installation))
  }

  /** The server challenged it at `y`, for an activation exactly if the sync has a token. */
  ghost predicate ChallengedAt(cfg: Settings, me: Identity, trace: seq<Moment>, y: nat, a: Attempt) {
    && y < |trace| && trace[y].action.Serve? && trace[y].action.request.AskChallenge?
    && var r := trace[y].action.request;
       && r.serial == me.serial && r.installation == me.installation && r.publicKey == me.key
       && (r.purpose == Activating <==> a.hasToken) && |r.nonce| >= 32
       && OutcomeAt(cfg, me, trace, y).Ok? && OutcomeAt(cfg, me, trace, y).reply.Challenged?
       && var reply := OutcomeAt(cfg, me, trace, y).reply;
          a.challenge == Replies(ChallengeReply(reply.challenge, reply.message))
  }

  /** At `z` it judged the proof the agent signed: the challenge's message, under the agent's key. */
  ghost predicate ProvedAt(cfg: Settings, me: Identity, trace: seq<Moment>, z: nat, a: Attempt) {
    && z < |trace| && trace[z].action.Serve? && a.challenge.Replies?
    && var r := trace[z].action.request;
       && (if a.hasToken then r.Activate? else r.Verify?)
       && ProofOf(r) == Proof(a.challenge.value.challenge, Signature(me.key, a.challenge.value.message))
       && OutcomeAt(cfg, me, trace, z).Ok? && OutcomeAt(cfg, me, trace, z).reply.Authorized?
       && var reply := OutcomeAt(cfg, me, trace, z).reply;
          a.proof == Replies(ProofReply(reply.device, reply.status, reply.document))
  }

  lemma ChallengeReplied(cfg: Settings, db: Db, now: Time, serial: Serial, i: Id, pub: PublicKey, purpose: Purpose, drawn: Id,
                         nonce: string)
    requires Step(cfg, db, now, AskChallenge(serial, i, pub, purpose, drawn, nonce)).outcome.Ok?
    ensures var o := Step(cfg, db, now, AskChallenge(serial, i, pub, purpose, drawn, nonce)).outcome;
            && o.reply.Challenged? && o.reply.challenge == drawn
            && MessageIs(cfg, o.reply.message, serial, i, pub, purpose, drawn, nonce, now)
  {
    hide Constraints;
  }

  /** The server's own challenge is one the agent signs, if it gets it before it lapses. */
  lemma ServerChallengeFits(cfg: Settings, me: Identity, trace: seq<Moment>, y: nat, a: Attempt)
    requires cfg.audience == AUDIENCE && ChallengedAt(cfg, me, trace, y, a)
    requires trace[y].now <= a.proving < trace[y].now + cfg.challengeSeconds * SECOND
    ensures ChallengeFits(me, a)
  {
    var r, m := trace[y].action.request, a.challenge.value.message;
    hide Step, WorldAt;
    ChallengeReplied(cfg, WorldAt(cfg, me, trace, y).db, trace[y].now, r.serial, r.installation, r.publicKey, r.purpose,
                     r.freshChallenge, r.nonce);
    LaterSeconds(trace[y].now, cfg.challengeSeconds);
    SecondsOrder(trace[y].now, a.proving);
    SecondsOrder(a.proving, trace[y].now + cfg.challengeSeconds * SECOND);
  }

  lemma LaterSeconds(t: Time, n: nat)
    ensures Seconds(t + n * SECOND) == Seconds(t) + n
  {
  }

  /** The answers name one device, and the document this agent. */
  lemma SameDevice(cfg: Settings, me: Identity, start: Time, trace: seq<Moment>, x: nat, z: nat, a: Attempt)
    requires Ordered(start, trace) && x < z && EnrolledAt(cfg, me, trace, x, a) && ProvedAt(cfg, me, trace, z, a)
    ensures a.proof.value.device == a.enroll.value.device && a.enroll.value.installation == me.installation
    ensures a.proof.value.status == Active <==> a.proof.value.document.Some?
    ensures a.proof.value.document.Some? ==> NamesIdentity(a.proof.value.document.value, me.serial, me.installation, me.key)
  {
    hide Inv, Step, Sync, GoodProof, NamesIdentity;
    var r := trace[x].action.request;
    EnrolledBelongs(cfg, WorldAt(cfg, me, trace, x).db, trace[x].now, r.serial, r.installation, r.publicKey, r.freshDevice);
    StillBelongs(cfg, me, trace, x + 1, z, a.enroll.value.device, me.installation, me.key);
    StillSerial(cfg, me, trace, x + 1, z, a.enroll.value.device);
    ServerInv(cfg, me, start, trace, z);
    Later(WorldAt(cfg, me, trace, z).db, TimeAt(start, trace, z), trace[z].now);
    ProofReplied(cfg, WorldAt(cfg, me, trace, z).db, trace[z].now, trace[z].action.request);
  }

  lemma TruthfulTimes(cfg: Settings, db: Db, now: Time, p: Payload)
    requires Truthful(cfg, db, now, p)
    ensures p.version == 1 && p.audience == cfg.audience && p.status == Active && p.issuedAt == Seconds(now)
    ensures p.expiresAt <= p.issuedAt + cfg.graceSeconds
  {
    LaterSeconds(now, cfg.graceSeconds);
    var lic := db.licenses[p.license];
    if lic.expiresAt.Some? {
      SecondsOrder(lic.expiresAt.value, now + cfg.graceSeconds * SECOND);
    }
  }

  /** What the document of an answered proof is worth, and that the server still knows it at every later moment. */
  lemma SentDocument(cfg: Settings, me: Identity, start: Time, trace: seq<Moment>, z: nat, n: nat, a: Attempt)
    returns (p: Payload)
    requires Ordered(start, trace) && z < n <= |trace| && ProvedAt(cfg, me, trace, z, a) && a.proof.value.document.Some?
    ensures p == a.proof.value.document.value && p.device == a.proof.value.device
    ensures p.version == 1 && p.audience == cfg.audience && p.status == Active && p.issuedAt == Seconds(trace[z].now)
    ensures p.expiresAt <= p.issuedAt + cfg.graceSeconds
    ensures p in WorldAt(cfg, me, trace, n).db.issued
  {
    hide Inv, Step, Sync, Truthful;
    p := a.proof.value.document.value;
    var before, now := WorldAt(cfg, me, trace, z), trace[z].now;
    ServerInv(cfg, me, start, trace, z);
    Later(before.db, TimeAt(start, trace, z), now);
    SignedTruthful(cfg, before.db, now, trace[z].action.request, p);
    assert WorldAt(cfg, me, trace, z + 1).db == Step(cfg, before.db, now, trace[z].action.request).db;
    TruthfulTimes(cfg, WorldAt(cfg, me, trace, z + 1).db, now, p);
    StillIssued(cfg, me, trace, z + 1, n, p);
  }

  /** Enrolled at `x`, challenged at `y`, proved at `z` with the answer ACTIVE, which brings a document, and back at `n`
      before the document runs out: the sync is authorized online, and the agent holds that document. */
  lemma HonestServerAuthorizes(cfg: Settings, me: Identity, start: Time, trace: seq<Moment>, x: nat, y: nat, z: nat, n: nat,
                               a: Attempt)
    requires Ordered(start, trace) && InOrder(trace) && cfg.audience == AUDIENCE && x < y < z < n < |trace|
    requires trace[n].action == Synchronize(a)
    requires EnrolledAt(cfg, me, trace, x, a) && ChallengedAt(cfg, me, trace, y, a) && ProvedAt(cfg, me, trace, z, a)
    requires trace[y].now <= a.proving < trace[y].now + cfg.challengeSeconds * SECOND
    requires a.proof.value.document.Some? && Seconds(trace[n].now) < a.proof.value.document.value.expiresAt
    ensures AuthorizedAt(cfg, me, trace, n)
    ensures WorldAt(cfg, me, trace, n + 1).cache
         == Holding(a.proof.value.document.value, a.enroll.value.device, Seconds(a.start))
  {
    var w := WorldAt(cfg, me, trace, n);
    assert WorldAt(cfg, me, trace, n + 1).cache == Sync(w.db.issued, me, w.cache, a).0;
    hide Inv, Step, Sync, ProofFits, ChallengeFits, EnrolledAt, ProvedAt, ChallengedAt, WorldAt, Ordered, InOrder;
    ServerChallengeFits(cfg, me, trace, y, a);
    ProofArrives(cfg, me, start, trace, x, z, n, a);
    OnlineExactly(w.db.issued, me, w.cache, a);
  }

  lemma ProofArrives(cfg: Settings, me: Identity, start: Time, trace: seq<Moment>, x: nat, z: nat, n: nat, a: Attempt)
    requires Ordered(start, trace) && InOrder(trace) && cfg.audience == AUDIENCE && x < z < n < |trace|
    requires trace[n].action == Synchronize(a)
    requires EnrolledAt(cfg, me, trace, x, a) && ProvedAt(cfg, me, trace, z, a)
    requires a.proof.value.document.Some?
    requires Seconds(trace[n].now) < a.proof.value.document.value.expiresAt
    ensures a.enroll.Replies? && a.enroll.value.installation == me.installation
    ensures ProofFits(WorldAt(cfg, me, trace, n).db.issued, me, WorldAt(cfg, me, trace, n).cache, a)
  {
    SameDevice(cfg, me, start, trace, x, z, a);
    var p := SentDocument(cfg, me, start, trace, z, n, a);
    ClockBehind(cfg, me, start, trace, n, trace[n].now);
    SecondsOrder(trace[z].now, trace[n].now);
    hide Inv, Step, Sync, WorldAt;
  }
}
