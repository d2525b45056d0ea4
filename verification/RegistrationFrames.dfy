/** What each handler leaves alone. */
module RegistrationFrames {
  import opened Prelude
  import opened RegistrationData
  import opened RegistrationSpec

  /** Equal but for challenges, sessions and issued documents. */
  ghost predicate SameRows(a: Db, b: Db) {
    && a.devices == b.devices && a.installations == b.installations && a.keys == b.keys && a.licenses == b.licenses
    && a.bindings == b.bindings && a.tokens == b.tokens && a.customers == b.customers
  }

  /** `authorize` changes nothing but sessions and issued documents. */
  lemma AuthorizeFrame(before: Db, db: Db, cfg: Settings, now: Time, d: Id, i: Id, k: PublicKey, drawn: Secret)
    requires d in db.devices && i in db.installations && k in db.keys
    ensures var r := Authorize(before, db, cfg, now, d, i, k, drawn);
            if r.outcome.Ok? then SameRows(db, r.db) && r.db.challenges == db.challenges else r.db == before
  {
    hide Constraints, Commit, IdentityStatus;
  }

  /** A refused proof spends at most its challenge. */
  lemma ConsumeFrame(db: Db, now: Time, proof: Proof, purpose: Purpose)
    ensures var c := Consume(db, now, proof, purpose);
            c.Denied? ==>
              && !c.result.outcome.Ok?
              && (c.result.db == db || (proof.challenge in db.challenges && c.result.db == Use(db, now, proof.challenge)))
  {
  }

  lemma TokenFrame(before: Db, db: Db, cfg: Settings, now: Time, t: Secret, d: Id, i: Id, k: PublicKey, drawn: Secret)
    requires d in db.devices && i in db.installations && k in db.keys && SameRows(before, db)
    ensures var r := ActivatingToken(before, db, cfg, now, t, d, i, k, drawn);
            || SameRows(before, r.db)
            || (&& r.outcome.Ok? && TokenFits(db, now, t, d, i, k) && db.tokens[t].usedAt.None?
                && db.devices[d].status !in {Revoked, Suspended} && db.tokens[t].license in db.licenses
                && SameRows(r.db, Bind(db, now, t, d, i, k, db.tokens[t].license)))
  {
    hide Authorize, OtherCurrent, ActiveCustomer, Usable, Bind, LicenseFor, BoundTo;
    AuthorizeFrame(before, db, cfg, now, d, i, k, drawn);
    if TokenFits(db, now, t, d, i, k) && db.tokens[t].license in db.licenses {
      BindRows(db, now, t, d, i, k, db.tokens[t].license);
      AuthorizeFrame(before, Bind(db, now, t, d, i, k, db.tokens[t].license), cfg, now, d, i, k, drawn);
    }
  }

  lemma BindRows(db: Db, now: Time, t: Secret, d: Id, i: Id, k: PublicKey, l: Id)
    requires t in db.tokens && d in db.devices && i in db.installations && k in db.keys && l in db.licenses
    ensures var after := Bind(db, now, t, d, i, k, l);
            d in after.devices && i in after.installations && k in after.keys && after.challenges == db.challenges
  {
  }

  /** An activation changes rows only by spending an unused token of a device that is not down. */
  lemma ActivateStep(cfg: Settings, db: Db, now: Time, proof: Proof, token: Secret, drawn: Secret)
    ensures var r := ActivatingDevice(db, cfg, now, proof, token, drawn);
            SameRows(db, r.db) || (r.outcome.Ok? && Spends(db, r.db, now, proof, token))
  {
    hide ActivatingToken, Consume;
    var c := Consume(db, now, proof, Activating);
    ConsumeFrame(db, now, proof, Activating);
    if c.Accepted? {
      AcceptedRows(db, now, proof, Activating);
      TokenFrame(db, c.db, cfg, now, token, c.device, c.installation, c.key, drawn);
    }
  }

  lemma AcceptedRows(db: Db, now: Time, proof: Proof, purpose: Purpose)
    requires Consume(db, now, proof, purpose).Accepted?
    ensures var c := Consume(db, now, proof, purpose);
            && proof.challenge in db.challenges && c.db == Use(db, now, proof.challenge) && SameRows(db, c.db)
            && var row := db.challenges[proof.challenge];
               c.device == row.device && c.installation == row.installation && c.key == row.key
  {
  }

  ghost predicate Spends(db: Db, after: Db, now: Time, proof: Proof, token: Secret) {
    && proof.challenge in db.challenges
    && var c := db.challenges[proof.challenge];
       && c.device in db.devices && c.installation in db.installations && c.key in db.keys
       && TokenFits(db, now, token, c.device, c.installation, c.key) && db.tokens[token].usedAt.None?
       && db.devices[c.device].status !in {Revoked, Suspended} && db.tokens[token].license in db.licenses
       && SameRows(after, Bind(db, now, token, c.device, c.installation, c.key, db.tokens[token].license))
  }

  lemma AuthorizeKinds(before: Db, db: Db, cfg: Settings, now: Time, d: Id, i: Id, k: PublicKey, drawn: Secret)
    requires d in db.devices && i in db.installations && k in db.keys
    ensures var o := Authorize(before, db, cfg, now, d, i, k, drawn).outcome; o.Ok? || o == Conflict || o == Crashed
  {
    hide Constraints, Commit, IdentityStatus;
  }

  ghost predicate SessionLive(db: Db, session: Session) {
    session.device in db.devices && session.installation in db.installations && session.key in db.keys
  }

  lemma VerifyFrame(cfg: Settings, db: Db, now: Time, proof: Proof, drawn: Secret)
    ensures SameRows(db, Verifying(db, cfg, now, proof, drawn).db)
  {
    hide Constraints, Commit, IdentityStatus, Authorize;
    ConsumeFrame(db, now, proof, Authenticating);
    var used := Consume(db, now, proof, Authenticating);
    if used.Accepted? {
      AuthorizeFrame(db, used.db, cfg, now, used.device, used.installation, used.key, drawn);
    }
  }

  lemma HeartbeatFrame(cfg: Settings, db: Db, now: Time, s: Secret, drawn: Secret)
    ensures var r := Beating(db, cfg, now, s, drawn); SameRows(db, r.db) && r.db.challenges == db.challenges
  {
    hide Constraints, Commit, IdentityStatus, Authorize;
    if s in db.sessions && SessionLive(db, db.sessions[s]) {
      var session := db.sessions[s];
      AuthorizeFrame(db, db, cfg, now, session.device, session.installation, session.key, drawn);
    }
  }

  // ---------------------------------------------------------------- which tables a handler writes

  ghost predicate OnlyCustomers(a: Db, b: Db) {
    b == a.(customers := b.customers)
  }

  ghost predicate OnlyLicenses(a: Db, b: Db) {
    b == a.(licenses := b.licenses)
  }

  ghost predicate OnlyDevices(a: Db, b: Db) {
    b == a.(devices := b.devices)
  }

  ghost predicate OnlyDevicesAndTokens(a: Db, b: Db) {
    b == a.(devices := b.devices, tokens := b.tokens)
  }

  /** Neither challenges nor sessions nor issued documents differ. */
  ghost predicate SameSides(a: Db, b: Db) {
    a.challenges == b.challenges && a.sessions == b.sessions && a.issued == b.issued
  }

  /** The request is about a customer or a license. */
  predicate AboutOwner(request: Request) {
    || request.CreateCustomer? || request.ArchiveCustomer? || request.RestoreCustomer?
    || request.CreateLicense? || request.RenewLicense? || request.ControlLicense?
  }

  lemma CustomerTables(db: Db, now: Time, c: Id)
    ensures OnlyCustomers(db, CreatingCustomer(db, c).db)
    ensures OnlyCustomers(db, ArchivingCustomer(db, now, c).db)
    ensures OnlyCustomers(db, RestoringCustomer(db, c).db)
  {
    hide Constraints, Commit, HasUsableLicense, HasLiveDevice, Stamp, ForeignKeys, UniqueSerials, LicenseChecks;
  }

  lemma LicenseTables(db: Db, now: Time, l: Id, until: Time, action: LicenseAction)
    ensures OnlyLicenses(db, RenewingLicense(db, now, l, until).db)
    ensures OnlyLicenses(db, ControllingLicense(db, l, action).db)
  {
    hide Constraints, Commit, ActiveCustomer;
  }

  lemma NewLicenseTables(db: Db, now: Time, c: Id, perpetual: bool, max: nat, until: Option<Time>, drawn: Id)
    ensures OnlyLicenses(db, CreatingLicense(db, now, c, perpetual, max, until, drawn).db)
  {
    hide Constraints, ActiveCustomer, LicenseChecks;
  }

  lemma DeviceTables(db: Db, d: Id, c: Option<Id>, status: Status)
    ensures OnlyDevices(db, UpdatingDevice(db, d, c).db)
    ensures OnlyDevices(db, RestoringDevice(db, d).db)
    ensures OnlyDevices(db, Marking(db, d, status).db)
  {
    hide Constraints, Commit, ActiveCustomer, LicenseFor, NotEditable;
  }

  lemma NewDeviceTables(db: Db, serial: Serial, c: Option<Id>, drawn: Id)
    ensures OnlyDevices(db, CreatingDevice(db, serial, c, drawn).db)
  {
    hide Constraints, Commit, ActiveCustomer, DeviceBySerial;
  }

  lemma ArchiveTables(db: Db, now: Time, d: Id)
    ensures OnlyDevicesAndTokens(db, ArchivingDevice(db, now, d).db)
  {
    hide Constraints, Commit, State, Stamp, Voided;
  }

  lemma ApproveTables(db: Db, now: Time, d: Id, i: Id, pub: PublicKey, l: Id, ttl: nat, drawn: Secret)
    ensures OnlyDevicesAndTokens(db, Approving(db, now, d, i, pub, l, ttl, drawn).db)
  {
    hide Constraints, Commit, Usable, OtherCurrent, ActiveCustomer, NotEditable;
  }

  lemma ReassignSides(db: Db, now: Time, d: Id)
    ensures SameSides(db, Reassigning(db, now, d).db)
  {
    hide Constraints, Commit, Released, ReleasedKeys, Voided;
  }

  lemma EnrollSides(db: Db, now: Time, serial: Serial, i: Id, pub: PublicKey, drawn: Id)
    ensures SameSides(db, Enrolling(db, now, serial, i, pub, drawn).db)
  {
    hide Constraints, IdentityStatus, Identify, DeviceBySerial, WithIdentity;
    if Identify(db, serial, i, pub).Unknown? {
      var found := DeviceBySerial(db, serial);
      IdentitySides(db, if found.Some? then found.value else drawn, found.None?, serial, i, pub);
    }
  }

  lemma IdentitySides(db: Db, d: Id, isNew: bool, serial: Serial, i: Id, pub: PublicKey)
    ensures SameSides(db, WithIdentity(db, d, isNew, serial, i, pub))
  {
  }

  /** Administrators and enrollment touch neither challenges nor sessions nor issued documents. */
  lemma SideTables(cfg: Settings, db: Db, now: Time, request: Request)
    requires !request.Verify? && !request.Activate? && !request.Heartbeat? && !request.AskChallenge?
    ensures SameSides(db, Step(cfg, db, now, request).db)
  {
    hide Enrolling, CreatingCustomer, ArchivingCustomer, RestoringCustomer, CreatingLicense, RenewingLicense,
      ControllingLicense, CreatingDevice, UpdatingDevice, ArchivingDevice, RestoringDevice, Approving, Marking,
      Reassigning;
    match request
    case Enroll(serial, i, pub, drawn) => EnrollSides(db, now, serial, i, pub, drawn);
    case CreateCustomer(c) => CustomerTables(db, now, c);
    case ArchiveCustomer(c) => CustomerTables(db, now, c);
    case RestoreCustomer(c) => CustomerTables(db, now, c);
    case CreateLicense(c, perpetual, max, until, drawn) => NewLicenseTables(db, now, c, perpetual, max, until, drawn);
    case RenewLicense(l, until) => LicenseTables(db, now, l, until, ResumeLicense);
    case ControlLicense(l, action) => LicenseTables(db, now, l, 0, action);
    case CreateDevice(serial, c, drawn) => NewDeviceTables(db, serial, c, drawn);
    case UpdateDevice(d, c) => DeviceTables(db, d, c, Pending);
    case RestoreDevice(d) => DeviceTables(db, d, None, Pending);
    case Suspend(d) => DeviceTables(db, d, None, Suspended);
    case Revoke(d) => DeviceTables(db, d, None, Revoked);
    case ArchiveDevice(d) => ArchiveTables(db, now, d);
    case Approve(d, i, pub, l, ttl, drawn) => ApproveTables(db, now, d, i, pub, l, ttl, drawn);
    case Reassign(d) => ReassignSides(db, now, d);
  }

  lemma AskChallengeTables(db: Db, cfg: Settings, now: Time, serial: Serial, i: Id, pub: PublicKey, purpose: Purpose,
                           drawn: Id, nonce: string)
    ensures var r := Challenging(db, cfg, now, serial, i, pub, purpose, drawn, nonce);
            && SameRows(db, r.db) && r.db.issued == db.issued
            && forall c | c in db.challenges :: c in r.db.challenges && r.db.challenges[c] == db.challenges[c]
  {
    hide Constraints, Commit, Identify;
  }
}
