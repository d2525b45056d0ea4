/** What an administrator can rely on over whole runs: a device or license that was taken out of service gets no signed
    document until it has been put back. */
module RegistrationPromises {
  import opened Prelude
  import opened RegistrationData
  import opened RegistrationSpec
  import opened RegistrationFrames
  import opened RegistrationInvariant
  import opened RegistrationRuns
  import opened RegistrationEffects
  import opened RegistrationProofs

  /** The reply to event `n` carries document `p`. */
  ghost predicate RepliesWith(cfg: Settings, db: Db, trace: seq<Event>, n: nat, p: Payload) {
    && n < |trace|
    && var o := ResultAt(cfg, db, trace, n).outcome; o.Ok? && o.reply.Authorized? && o.reply.document == Some(p)
  }

  lemma InvAt(cfg: Settings, db: Db, start: Time, trace: seq<Event>, n: nat)
    requires Inv(db, start) && Ordered(start, trace) && n < |trace|
    ensures Inv(StateAt(cfg, db, trace, n), trace[n].now)
  {
    hide Inv, Step;
    ReachableInv(cfg, db, start, trace, n);
    Later(StateAt(cfg, db, trace, n), TimeAt(start, trace, n), trace[n].now);
  }

  lemma ReplyTruthful(cfg: Settings, db: Db, start: Time, trace: seq<Event>, n: nat, p: Payload)
    requires Inv(db, start) && Ordered(start, trace) && RepliesWith(cfg, db, trace, n, p)
    ensures HeldActive(StateAt(cfg, db, trace, n + 1), trace[n].now, p.device, p.installation, p.key, p.license)
  {
    hide Inv, Step, HeldActive;
    InvAt(cfg, db, start, trace, n);
    SignedTruthful(cfg, StateAt(cfg, db, trace, n), trace[n].now, trace[n].request, p);
  }

  // ---------------------------------------------------------------- devices

  /** An administrator took the device out of service. */
  ghost predicate TakenOutAt(cfg: Settings, db: Db, trace: seq<Event>, i: nat, d: Id) {
    i < |trace| && trace[i].request in {Revoke(d), Suspend(d), ArchiveDevice(d)} && ResultAt(cfg, db, trace, i).outcome.Ok?
  }

  lemma TakenDown(cfg: Settings, db: Db, start: Time, trace: seq<Event>, i: nat, d: Id)
    requires Inv(db, start) && Ordered(start, trace) && TakenOutAt(cfg, db, trace, i, d)
    ensures Down(StateAt(cfg, db, trace, i + 1), d)
  {
    hide Inv, Step, State;
    InvAt(cfg, db, start, trace, i);
    var before, now := StateAt(cfg, db, trace, i), trace[i].now;
    if trace[i].request == ArchiveDevice(d) {
      ArchiveTakesEffect(cfg, before, now, d);
    } else {
      MarkTakesEffect(cfg, before, now, trace[i].request);
    }
  }

  /** After a revocation, a suspension or an archival of a device, no reply carries a document of it before it was
      reassigned, after that approved, and after that activated. */
  lemma OutOfService(cfg: Settings, db: Db, start: Time, trace: seq<Event>, i: nat, n: nat, p: Payload)
    requires Inv(db, start) && Ordered(start, trace) && i < n && TakenOutAt(cfg, db, trace, i, p.device)
    requires RepliesWith(cfg, db, trace, n, p)
    ensures exists a: nat, b: nat, c: nat ::
              && i < a < b < c <= n && ReassignedAt(cfg, db, trace, a, p.device)
              && ApprovedAt(cfg, db, trace, b, p.device) && ActivatedAt(cfg, db, trace, c, p.device)
  {
    hide Inv, State, StateAt, ResultAt, Step, HeldActive, TakenOutAt, RepliesWith, ReassignedAt, ApprovedAt, ActivatedAt;
    assert n < |trace| by {
      InTrace(cfg, db, trace, n, p);
    }
    TakenDown(cfg, db, start, trace, i, p.device);
    ReplyTruthful(cfg, db, start, trace, n, p);
    HeldState(StateAt(cfg, db, trace, n + 1), trace[n].now, p);
    ReactivationNeedsAllThree(cfg, db, start, trace, i + 1, n + 1, p.device, trace[n].now);
    var a: nat, b: nat, c: nat :| && i + 1 <= a < b < c < n + 1 && ReassignedAt(cfg, db, trace, a, p.device)
                                  && ApprovedAt(cfg, db, trace, b, p.device) && ActivatedAt(cfg, db, trace, c, p.device);
  }

  lemma InTrace(cfg: Settings, db: Db, trace: seq<Event>, n: nat, p: Payload)
    requires RepliesWith(cfg, db, trace, n, p)
    ensures n < |trace|
  {
  }

  lemma HeldState(db: Db, now: Time, p: Payload)
    requires HeldActive(db, now, p.device, p.installation, p.key, p.license)
    ensures p.device in db.devices && State(db, now, p.device) == Active
    ensures p.license in db.licenses && db.licenses[p.license].status == LicenseActive
  {
    hide State;
  }

  // ---------------------------------------------------------------- licenses

  lemma OtherLicenses(cfg: Settings, db: Db, now: Time, request: Request)
    requires !request.CreateLicense? && !request.RenewLicense? && !request.ControlLicense?
    ensures Step(cfg, db, now, request).db.licenses == db.licenses
  {
    hide Enrolling, CreatingCustomer, ArchivingCustomer, RestoringCustomer, CreatingDevice, UpdatingDevice, ArchivingDevice,
         RestoringDevice, Approving, Marking, Reassigning, Verifying, ActivatingDevice, Beating, Challenging;
    match request
    case Enroll(serial, i, pub, drawn) => EnrollLicenses(db, now, serial, i, pub, drawn);
    case AskChallenge(serial, i, pub, purpose, drawn, nonce) =>
      AskChallengeTables(db, cfg, now, serial, i, pub, purpose, drawn, nonce);
    case Verify(proof, drawn) => VerifyFrame(cfg, db, now, proof, drawn);
    case Activate(proof, t, drawn) => ActivateLicenses(cfg, db, now, proof, t, drawn);
    case Heartbeat(s, drawn) => HeartbeatFrame(cfg, db, now, s, drawn);
    case CreateCustomer(c) => CustomerTables(db, now, c);
    case ArchiveCustomer(c) => CustomerTables(db, now, c);
    case RestoreCustomer(c) => CustomerTables(db, now, c);
    case CreateDevice(serial, c, drawn) => NewDeviceTables(db, serial, c, drawn);
    case UpdateDevice(d, c) => DeviceTables(db, d, c, Pending);
    case RestoreDevice(d) => DeviceTables(db, d, None, Pending);
    case Suspend(d) => DeviceTables(db, d, None, Suspended);
    case Revoke(d) => DeviceTables(db, d, None, Revoked);
    case ArchiveDevice(d) => ArchiveTables(db, now, d);
    case Approve(d, i, pub, l, ttl, drawn) => ApproveTables(db, now, d, i, pub, l, ttl, drawn);
    case Reassign(d) => ReassignLicenses(db, now, d);
  }

  lemma EnrollLicenses(db: Db, now: Time, serial: Serial, i: Id, pub: PublicKey, drawn: Id)
    ensures Enrolling(db, now, serial, i, pub, drawn).db.licenses == db.licenses
  {
    hide Constraints, Commit, IdentityStatus, Identify, DeviceBySerial;
  }

  lemma ReassignLicenses(db: Db, now: Time, d: Id)
    ensures Reassigning(db, now, d).db.licenses == db.licenses
  {
    hide Constraints, Commit, Released, ReleasedKeys, Voided;
  }

  lemma ActivateLicenses(cfg: Settings, db: Db, now: Time, proof: Proof, t: Secret, drawn: Secret)
    ensures ActivatingDevice(db, cfg, now, proof, t, drawn).db.licenses == db.licenses
  {
    hide ActivatingDevice;
    ActivateStep(cfg, db, now, proof, t, drawn);
  }

  ghost predicate ResumedAt(cfg: Settings, db: Db, trace: seq<Event>, k: nat, l: Id) {
    && k < |trace| && trace[k].request == ControlLicense(l, ResumeLicense) && ResultAt(cfg, db, trace, k).outcome.Ok?
  }

  /** A revoked license stays revoked; one that is suspended becomes ACTIVE only by being resumed. */
  lemma LicenseStep(cfg: Settings, db: Db, now: Time, request: Request, l: Id)
    requires Inv(db, now) && l in db.licenses && db.licenses[l].status != LicenseActive
    ensures var r := Step(cfg, db, now, request);
            && l in r.db.licenses
            && (db.licenses[l].status == LicenseRevoked ==> r.db.licenses[l].status == LicenseRevoked)
            && (r.db.licenses[l].status == LicenseActive ==> r.outcome.Ok? && request == ControlLicense(l, ResumeLicense))
  {
    hide Inv, Step, ActiveCustomer, UsableUntil, NeverUsable, SameTerms;
    match request
    case CreateLicense(c, perpetual, max, until, drawn) =>
      if drawn !in db.licenses {
        LicenseCreated(cfg, db, now, c, perpetual, max, until, drawn);
      } else {
        TakenLicense(cfg, db, now, c, perpetual, max, until, drawn);
      }
    case RenewLicense(m, until) => RenewalTakesEffect(cfg, db, now, m, until);
    case ControlLicense(m, action) => ControlTakesEffect(cfg, db, now, m, action);
    case _ => OtherLicenses(cfg, db, now, request);
  }

  lemma TakenLicense(cfg: Settings, db: Db, now: Time, c: Id, perpetual: bool, max: nat, until: Option<Time>, drawn: Id)
    requires drawn in db.licenses
    ensures Step(cfg, db, now, CreateLicense(c, perpetual, max, until, drawn)).db == db
  {
    hide Constraints, Commit, ActiveCustomer;
  }

  /** From a moment at which license `l` is not ACTIVE on: the first step that resumes it, if there is one. */
  lemma {:induction false} LicenseStays(cfg: Settings, db: Db, start: Time, trace: seq<Event>, a: nat, n: nat, l: Id)
    returns (k: nat)
    requires Inv(db, start) && Ordered(start, trace) && a <= n <= |trace|
    requires l in StateAt(cfg, db, trace, a).licenses && StateAt(cfg, db, trace, a).licenses[l].status != LicenseActive
    ensures a <= k <= n
    ensures k == n ==> && l in StateAt(cfg, db, trace, n).licenses
                       && StateAt(cfg, db, trace, n).licenses[l].status != LicenseActive
    ensures k < n ==> ResumedAt(cfg, db, trace, k, l)
    ensures StateAt(cfg, db, trace, a).licenses[l].status == LicenseRevoked ==> k == n
    decreases n - a
  {
    hide Inv, Step;
    k := n;
    if a < n {
      InvAt(cfg, db, start, trace, a);
      LicenseStep(cfg, StateAt(cfg, db, trace, a), trace[a].now, trace[a].request, l);
      assert StateAt(cfg, db, trace, a + 1) == Step(cfg, StateAt(cfg, db, trace, a), trace[a].now, trace[a].request).db;
      if StateAt(cfg, db, trace, a + 1).licenses[l].status == LicenseActive {
        k := a;
      } else {
        k := LicenseStays(cfg, db, start, trace, a + 1, n, l);
      }
    }
  }

  /** After a license was suspended, no reply carries a document under it before it was resumed; after it was revoked,
      never again. */
  lemma LicenseWithdrawn(cfg: Settings, db: Db, start: Time, trace: seq<Event>, i: nat, n: nat, p: Payload)
    requires Inv(db, start) && Ordered(start, trace) && i < n < |trace|
    requires trace[i].request.ControlLicense? && trace[i].request.license == p.license
    requires trace[i].request.action != ResumeLicense && ResultAt(cfg, db, trace, i).outcome.Ok?
    requires RepliesWith(cfg, db, trace, n, p)
    ensures trace[i].request.action == SuspendLicense
    ensures exists k: nat :: i < k < n && ResumedAt(cfg, db, trace, k, p.license)
  {
    hide Inv, Step, HeldActive, NeverUsable, SameTerms;
    InvAt(cfg, db, start, trace, i);
    ControlTakesEffect(cfg, StateAt(cfg, db, trace, i), trace[i].now, p.license, trace[i].request.action);
    ReplyTruthful(cfg, db, start, trace, n, p);
    HeldState(StateAt(cfg, db, trace, n + 1), trace[n].now, p);
    var k := LicenseStays(cfg, db, start, trace, i + 1, n + 1, p.license);
    if k == n {
      assert trace[n].request == ControlLicense(p.license, ResumeLicense);
      ControlReply(cfg, StateAt(cfg, db, trace, n), trace[n].now, p.license, ResumeLicense);
    }
  }

  lemma ControlReply(cfg: Settings, db: Db, now: Time, l: Id, action: LicenseAction)
    requires Step(cfg, db, now, ControlLicense(l, action)).outcome.Ok?
    ensures Step(cfg, db, now, ControlLicense(l, action)).outcome.reply == Done
  {
    hide Constraints, Commit, ActiveCustomer;
  }
}
