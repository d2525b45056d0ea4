/** What every administrator's request achieves: when it is answered with success, the rows it leaves, and that it leaves
    everything else alone. A request that is not answered with success changes nothing. */
module RegistrationEffects {
  import opened Prelude
  import opened RegistrationData
  import opened RegistrationSpec
  import opened RegistrationFrames
  import opened RegistrationInvariant

  /** At most the row of `k` differs, and it is there afterwards. */
  ghost predicate OneRow<K, V>(before: map<K, V>, after: map<K, V>, k: K) {
    && k in after && (forall x | x in after && x != k :: x in before && after[x] == before[x])
    && (forall x | x in before :: x in after)
  }

  /** The row of `k` is a new one. */
  ghost predicate NewRow<K, V>(before: map<K, V>, after: map<K, V>, k: K) {
    k !in before && OneRow(before, after, k)
  }

  ghost predicate Editable(db: Db, d: Id) {
    d in db.devices && db.devices[d].archivedAt.None?
  }

  /** Under the invariant the database refuses nothing, unless a drawn identifier was taken. */
  lemma Answers(cfg: Settings, db: Db, now: Time, request: Request)
    requires Inv(db, now) && !Collides(db, request)
    ensures Step(cfg, db, now, request).outcome !in {Conflict, Crashed}
  {
    hide Step, Inv;
    StepSound(cfg, db, now, now, request);
  }

  // ---------------------------------------------------------------- devices

  /** A revocation and a suspension of a device that is not archived succeed and take effect at once. */
  lemma MarkTakesEffect(cfg: Settings, db: Db, now: Time, request: Request)
    requires Inv(db, now) && (request.Revoke? || request.Suspend?)
    ensures var r, d := Step(cfg, db, now, request), request.device;
            && (r.outcome == Ok(Done) <==> Editable(db, d)) && (r.outcome.Ok? <==> Editable(db, d))
            && (!r.outcome.Ok? ==> r.db == db)
            && (r.outcome.Ok? ==>
                 && OnlyDevices(db, r.db) && OneRow(db.devices, r.db.devices, d)
                 && r.db.devices[d].status == (if request.Revoke? then Revoked else Suspended)
                 && r.db.devices[d].serial == db.devices[d].serial && r.db.devices[d].customer == db.devices[d].customer
                 && r.db.devices[d].archivedAt.None?)
  {
    hide Inv, Constraints, Commit;
    Answers(cfg, db, now, request);
  }

  /** Archival needs a device that is not effectively ACTIVE; it revokes the device, keeps the mark of an earlier
      archival, and lets every token of the device that could still be spent run out. */
  lemma ArchiveTakesEffect(cfg: Settings, db: Db, now: Time, d: Id)
    requires Inv(db, now)
    ensures var r := Step(cfg, db, now, ArchiveDevice(d));
            && (r.outcome.Ok? <==> d in db.devices && State(db, now, d) != Active)
            && (!r.outcome.Ok? ==> r.db == db)
            && (r.outcome.Ok? ==>
                 && OnlyDevicesAndTokens(db, r.db) && OneRow(db.devices, r.db.devices, d)
                 && r.db.devices[d].status == Revoked
                 && (db.devices[d].archivedAt.None? ==> r.db.devices[d].archivedAt == Some(now))
                 && (db.devices[d].archivedAt.Some? ==> r.db.devices[d].archivedAt == db.devices[d].archivedAt)
                 && r.db.devices[d].serial == db.devices[d].serial && r.db.devices[d].customer == db.devices[d].customer
                 && TokensRunOut(db.tokens, r.db.tokens, d, now))
  {
    hide Inv, Constraints, Commit, State, Voided, TokensRunOut;
    Answers(cfg, db, now, ArchiveDevice(d));
    TokensVoided(db.tokens, d, now);
  }

  /** The unused tokens of the device end now; every other token and everything else of these stays. */
  ghost predicate TokensRunOut(before: map<Secret, Token>, after: map<Secret, Token>, d: Id, now: Time) {
    && after.Keys == before.Keys
    && forall t | t in before ::
         && (before[t].device == d && before[t].usedAt.None? ==> after[t].expiresAt == now)
         && (before[t].device != d || before[t].usedAt.Some? ==> after[t].expiresAt == before[t].expiresAt)
         && after[t].device == before[t].device && after[t].installation == before[t].installation
         && after[t].key == before[t].key && after[t].license == before[t].license && after[t].usedAt == before[t].usedAt
  }

  /** A restored device can be edited again, and is still REVOKED if it was archived. */
  lemma RestoreTakesEffect(cfg: Settings, db: Db, now: Time, d: Id)
    requires Inv(db, now)
    ensures var r := Step(cfg, db, now, RestoreDevice(d));
            && (r.outcome.Ok? <==> d in db.devices)
            && (!r.outcome.Ok? ==> r.db == db)
            && (r.outcome.Ok? ==>
                 && OnlyDevices(db, r.db) && OneRow(db.devices, r.db.devices, d) && Editable(r.db, d)
                 && r.db.devices[d].status == db.devices[d].status
                 && (db.devices[d].archivedAt.Some? ==> r.db.devices[d].status == Revoked)
                 && r.db.devices[d].serial == db.devices[d].serial && r.db.devices[d].customer == db.devices[d].customer)
  {
    hide Inv, Constraints, Commit;
    Answers(cfg, db, now, RestoreDevice(d));
    if d in db.devices {
      DeviceFacts(db, now, d);
    }
  }

  /** A new device needs a serial that nobody has and an owner, if any, that is not archived. */
  lemma DeviceCreated(cfg: Settings, db: Db, now: Time, serial: Serial, c: Option<Id>, drawn: Id)
    requires Inv(db, now) && drawn !in db.devices
    ensures var r := Step(cfg, db, now, CreateDevice(serial, c, drawn));
            && (r.outcome.Ok? <==> && (forall d | d in db.devices :: db.devices[d].serial != serial)
                                   && (c.Some? ==> ActiveCustomer(db, c.value)))
            && (!r.outcome.Ok? ==> r.db == db)
            && (r.outcome.Ok? ==>
                 && OnlyDevices(db, r.db) && NewRow(db.devices, r.db.devices, drawn)
                 && r.db.devices[drawn].serial == serial && r.db.devices[drawn].customer == c
                 && r.db.devices[drawn].status == Pending && r.db.devices[drawn].archivedAt.None?)
  {
    hide Inv, Constraints, Commit, ActiveCustomer;
    Answers(cfg, db, now, CreateDevice(serial, c, drawn));
  }

  /** Ownership changes only while no license is bound to the device, and only to a customer that is not archived. */
  lemma OwnerTakesEffect(cfg: Settings, db: Db, now: Time, d: Id, c: Option<Id>)
    requires Inv(db, now)
    ensures var r := Step(cfg, db, now, UpdateDevice(d, c));
            && (r.outcome.Ok? <==> && Editable(db, d) && (c.Some? ==> ActiveCustomer(db, c.value))
                                   && (d in db.bindings ==> c == db.devices[d].customer))
            && (!r.outcome.Ok? ==> r.db == db)
            && (r.outcome.Ok? ==>
                 && OnlyDevices(db, r.db) && OneRow(db.devices, r.db.devices, d)
                 && r.db.devices[d].customer == c && r.db.devices[d].serial == db.devices[d].serial
                 && r.db.devices[d].status == db.devices[d].status && r.db.devices[d].archivedAt.None?)
  {
    hide Inv, Constraints, Commit, ActiveCustomer, LicenseFor, StatusFits, DevicesRefer, BindingsRefer, LicensesRefer;
    Answers(cfg, db, now, UpdateDevice(d, c));
    if d in db.devices {
      OwnedByLicense(db, now, d, c);
    }
  }

  lemma OwnedByLicense(db: Db, now: Time, d: Id, c: Option<Id>)
    requires Inv(db, now) && d in db.devices
    ensures LicenseFor(db, d).Some? ==> LicenseFor(db, d).value in db.licenses
    ensures LicenseFor(db, d).Some? && c != Some(db.licenses[LicenseFor(db, d).value].customer)
       <==> d in db.bindings && c != db.devices[d].customer
  {
    hide Inv;
    DeviceFacts(db, now, d);
  }

  /** What an approval needs: a device that is neither archived nor down, an identity of it that is the current one
      or has no rival, and a license that can be used. */
  ghost predicate Approvable(db: Db, now: Time, d: Id, i: Id, pub: PublicKey, l: Id) {
    && Editable(db, d) && db.devices[d].status !in {Revoked, Suspended}
    && i in db.installations && db.installations[i].device == d && pub in db.keys && db.keys[pub].installation == i
    && (forall j | j in db.installations && db.installations[j].device == d && db.installations[j].current :: j == i)
    && (forall k | k in db.keys && db.keys[k].installation == i && db.keys[k].current :: k == pub)
    && l in db.licenses && db.licenses[l].status == LicenseActive
    && (db.licenses[l].expiresAt.Some? ==> now < db.licenses[l].expiresAt.value)
  }

  /** An approval yields exactly one new token, for this identity and license, spendable for the time asked for; the
      device waits for its activation unless it is ACTIVE already. */
  lemma ApprovalTakesEffect(cfg: Settings, db: Db, now: Time, d: Id, i: Id, pub: PublicKey, l: Id, ttl: nat, drawn: Secret)
    requires Inv(db, now) && drawn !in db.tokens
    ensures var r := Step(cfg, db, now, Approve(d, i, pub, l, ttl, drawn));
            && (r.outcome.Ok? <==> 60 <= ttl <= 86400 && Approvable(db, now, d, i, pub, l))
            && (!r.outcome.Ok? ==> r.db == db)
            && (r.outcome.Ok? ==>
                 && r.outcome == Ok(Approved(drawn)) && OnlyDevicesAndTokens(db, r.db)
                 && NewRow(db.tokens, r.db.tokens, drawn) && OneRow(db.devices, r.db.devices, d)
                 && TokenIs(r.db.tokens[drawn], d, i, pub, l, now + ttl * SECOND)
                 && r.db.devices[d].status == (if db.devices[d].status == Active then Active else ActivationRequired)
                 && r.db.devices[d].serial == db.devices[d].serial && r.db.devices[d].customer == db.devices[d].customer
                 && r.db.devices[d].archivedAt.None?)
  {
    hide Inv, Constraints, Commit, ActiveCustomer;
    Answers(cfg, db, now, Approve(d, i, pub, l, ttl, drawn));
    if l in db.licenses {
      UsableCustomer(db, now, l);
    }
  }

  ghost predicate TokenIs(t: Token, d: Id, i: Id, pub: PublicKey, l: Id, expires: Time) {
    && t.device == d && t.installation == i && t.key == pub && t.license == l && t.expiresAt == expires && t.usedAt.None?
  }

  lemma UsableCustomer(db: Db, now: Time, l: Id)
    requires Inv(db, now) && l in db.licenses
    ensures Usable(db.licenses[l], now) ==> ActiveCustomer(db, db.licenses[l].customer)
  {
    assert db.licenses[l].customer in db.customers.Keys;
  }

  /** A reassignment leaves nothing of the old identity: no binding, no owner, no current installation or key, no token
      that could still be spent; the device is PENDING. */
  lemma ReassignTakesEffect(cfg: Settings, db: Db, now: Time, d: Id)
    requires Inv(db, now)
    ensures var r := Step(cfg, db, now, Reassign(d));
            && (r.outcome.Ok? <==> Editable(db, d))
            && (!r.outcome.Ok? ==> r.db == db)
            && (r.outcome.Ok? ==>
                 && OneRow(db.devices, r.db.devices, d)
                 && r.db.devices[d].status == Pending && r.db.devices[d].customer.None? && r.db.devices[d].archivedAt.None?
                 && r.db.devices[d].serial == db.devices[d].serial
                 && r.db.bindings == db.bindings - {d} && TokensRunOut(db.tokens, r.db.tokens, d, now)
                 && InstallationsRetired(db.installations, r.db.installations, d)
                 && KeysRetired(db.installations, db.keys, r.db.keys, d)
                 && r.db.customers == db.customers && r.db.licenses == db.licenses && SameSides(db, r.db))
  {
    hide Inv, Constraints, Commit, Voided, Released, ReleasedKeys, TokensRunOut, InstallationsRetired, KeysRetired;
    Answers(cfg, db, now, Reassign(d));
    TokensVoided(db.tokens, d, now);
    IdentityRetired(db.installations, db.keys, d);
  }

  lemma TokensVoided(tokens: map<Secret, Token>, d: Id, now: Time)
    ensures TokensRunOut(tokens, Voided(tokens, d, now), d, now)
  {
  }

  lemma IdentityRetired(installations: map<Id, Installation>, keys: map<PublicKey, Key>, d: Id)
    ensures InstallationsRetired(installations, Released(installations, d), d)
    ensures KeysRetired(installations, keys, ReleasedKeys(installations, keys, d), d)
  {
  }

  ghost predicate InstallationsRetired(before: map<Id, Installation>, after: map<Id, Installation>, d: Id) {
    && after.Keys == before.Keys
    && forall i | i in before ::
         && after[i].device == before[i].device && (after[i].current <==> before[i].current && before[i].device != d)
  }

  ghost predicate KeysRetired(installations: map<Id, Installation>, before: map<PublicKey, Key>, after: map<PublicKey, Key>,
                              d: Id)
  {
    && after.Keys == before.Keys
    && forall k | k in before ::
         && after[k].installation == before[k].installation
         && (after[k].current <==> before[k].current && !(before[k].installation in installations
                                                           && installations[before[k].installation].device == d))
  }

  // ---------------------------------------------------------------- customers and licenses

  lemma CustomerCreated(cfg: Settings, db: Db, now: Time, drawn: Id)
    requires Inv(db, now) && drawn !in db.customers
    ensures var r := Step(cfg, db, now, CreateCustomer(drawn));
            && r.outcome == Ok(Done) && OnlyCustomers(db, r.db) && NewRow(db.customers, r.db.customers, drawn)
            && ActiveCustomer(r.db, drawn)
  {
    hide Inv, Constraints, Commit;
    Answers(cfg, db, now, CreateCustomer(drawn));
  }

  /** A customer can be archived as long as no license of his can be used and no device of his is in service; the mark of
      an earlier archival stays. */
  lemma CustomerArchived(cfg: Settings, db: Db, now: Time, c: Id)
    requires Inv(db, now)
    ensures var r := Step(cfg, db, now, ArchiveCustomer(c));
            && (r.outcome.Ok? <==>
                 && c in db.customers
                 && (forall l | l in db.licenses && db.licenses[l].customer == c ::
                       db.licenses[l].status != LicenseActive
                       || (db.licenses[l].expiresAt.Some? && db.licenses[l].expiresAt.value <= now))
                 && (forall d | d in db.devices && db.devices[d].customer == Some(c) && db.devices[d].archivedAt.None? ::
                       db.devices[d].status !in {Active, Suspended}))
            && (!r.outcome.Ok? ==> r.db == db)
            && (r.outcome.Ok? ==>
                 && OnlyCustomers(db, r.db) && OneRow(db.customers, r.db.customers, c) && !ActiveCustomer(r.db, c)
                 && (db.customers[c].archivedAt.None? ==> r.db.customers[c].archivedAt == Some(now))
                 && (db.customers[c].archivedAt.Some? ==> r.db.customers[c].archivedAt == db.customers[c].archivedAt))
  {
    hide Inv, Constraints, Commit;
    Answers(cfg, db, now, ArchiveCustomer(c));
  }

  lemma CustomerRestored(cfg: Settings, db: Db, now: Time, c: Id)
    requires Inv(db, now)
    ensures var r := Step(cfg, db, now, RestoreCustomer(c));
            && (r.outcome.Ok? <==> c in db.customers)
            && (!r.outcome.Ok? ==> r.db == db)
            && (r.outcome.Ok? ==>
                 OnlyCustomers(db, r.db) && OneRow(db.customers, r.db.customers, c) && ActiveCustomer(r.db, c))
  {
    hide Inv, Constraints, Commit;
    Answers(cfg, db, now, RestoreCustomer(c));
  }

  /** When the license can be used: from now on, up to its expiry if it has one. */
  ghost predicate UsableUntil(lic: License, until: Option<Time>) {
    forall t: Time :: Usable(lic, t) <==> (until.Some? ==> t < until.value)
  }

  ghost predicate NeverUsable(lic: License) {
    forall t: Time :: !Usable(lic, t)
  }

  lemma UsableTimes(lic: License)
    ensures lic.status == LicenseActive ==> UsableUntil(lic, lic.expiresAt)
    ensures lic.status != LicenseActive ==> NeverUsable(lic)
  {
  }

  /** A new license of a customer that is not archived can be used up to its expiry. */
  lemma LicenseCreated(cfg: Settings, db: Db, now: Time, c: Id, perpetual: bool, max: nat, until: Option<Time>, drawn: Id)
    requires Inv(db, now) && drawn !in db.licenses
    ensures var r := Step(cfg, db, now, CreateLicense(c, perpetual, max, until, drawn));
            && (r.outcome.Ok? <==> && 1 <= max <= 100000 && ActiveCustomer(db, c) && (perpetual || until.Some?)
                                   && (until.Some? ==> now < until.value))
            && (!r.outcome.Ok? ==> r.db == db)
            && (r.outcome.Ok? ==>
                 && OnlyLicenses(db, r.db) && NewRow(db.licenses, r.db.licenses, drawn)
                 && r.db.licenses[drawn].customer == c && r.db.licenses[drawn].maxDevices == max
                 && r.db.licenses[drawn].perpetual == perpetual && UsableUntil(r.db.licenses[drawn], until))
  {
    hide Inv, Constraints, Commit;
    Answers(cfg, db, now, CreateLicense(c, perpetual, max, until, drawn));
  }

  ghost predicate SameTerms(a: License, b: License) {
    a.customer == b.customer && a.maxDevices == b.maxDevices && a.perpetual == b.perpetual
  }

  /** A renewal moves the expiry, and nothing else: an ACTIVE license can be used up to the new one, a suspended one
      stays suspended, and a revoked one is not renewed. */
  lemma RenewalTakesEffect(cfg: Settings, db: Db, now: Time, l: Id, until: Time)
    requires Inv(db, now)
    ensures var r := Step(cfg, db, now, RenewLicense(l, until));
            && (r.outcome.Ok? <==> && l in db.licenses && db.licenses[l].status != LicenseRevoked && now < until
                                   && ActiveCustomer(db, db.licenses[l].customer))
            && (!r.outcome.Ok? ==> r.db == db)
            && (r.outcome.Ok? ==>
                 && OnlyLicenses(db, r.db) && OneRow(db.licenses, r.db.licenses, l)
                 && SameTerms(db.licenses[l], r.db.licenses[l]) && r.db.licenses[l].status == db.licenses[l].status
                 && r.db.licenses[l].expiresAt == Some(until)
                 && (db.licenses[l].status == LicenseActive ==> UsableUntil(r.db.licenses[l], Some(until))))
  {
    hide Inv, Constraints, Commit, ActiveCustomer;
    Answers(cfg, db, now, RenewLicense(l, until));
  }

  /** A suspended or revoked license cannot be used at any time, a resumed one up to its expiry; a revoked one is never
      touched again. */
  lemma ControlTakesEffect(cfg: Settings, db: Db, now: Time, l: Id, action: LicenseAction)
    requires Inv(db, now)
    ensures var r := Step(cfg, db, now, ControlLicense(l, action));
            && (r.outcome.Ok? <==> && l in db.licenses && db.licenses[l].status != LicenseRevoked
                                   && (action == ResumeLicense ==> ActiveCustomer(db, db.licenses[l].customer)))
            && (!r.outcome.Ok? ==> r.db == db)
            && (r.outcome.Ok? ==>
                 && OnlyLicenses(db, r.db) && OneRow(db.licenses, r.db.licenses, l)
                 && SameTerms(db.licenses[l], r.db.licenses[l])
                 && r.db.licenses[l].expiresAt == db.licenses[l].expiresAt
                 && (action == RevokeLicense <==> r.db.licenses[l].status == LicenseRevoked)
                 && (action == SuspendLicense <==> r.db.licenses[l].status == LicenseSuspended)
                 && (action == ResumeLicense ==> UsableUntil(r.db.licenses[l], db.licenses[l].expiresAt))
                 && (action != ResumeLicense ==> NeverUsable(r.db.licenses[l])))
  {
    hide Inv, Constraints, ActiveCustomer, UsableUntil, NeverUsable, Step, ForeignKeys;
    ControlAnswers(cfg, db, now, l, action);
    if l in db.licenses {
      UsableTimes(db.licenses[l].(status := StatusAfter(action)));
    }
  }

  function StatusAfter(action: LicenseAction): LicenseStatus {
    match action
    case SuspendLicense => LicenseSuspended
    case RevokeLicense => LicenseRevoked
    case ResumeLicense => LicenseActive
  }

  lemma ControlAnswers(cfg: Settings, db: Db, now: Time, l: Id, action: LicenseAction)
    requires Inv(db, now)
    ensures var r := Step(cfg, db, now, ControlLicense(l, action));
            if && l in db.licenses && db.licenses[l].status != LicenseRevoked
               && (action == ResumeLicense ==> ActiveCustomer(db, db.licenses[l].customer))
            then r.outcome.Ok? && r.db == db.(licenses := db.licenses[l := db.licenses[l].(status := StatusAfter(action))])
            else !r.outcome.Ok? && r.db == db
  {
    hide Inv, Constraints, Commit, ActiveCustomer, Usable;
    Answers(cfg, db, now, ControlLicense(l, action));
  }
}
