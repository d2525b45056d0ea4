/** The whole-machine invariant of the registration server, and its preservation by every handler. */
module RegistrationInvariant {
  import opened Prelude
  import opened RegistrationData
  import opened RegistrationSpec

  /** Each installation has exactly one key, and the two `current` flags agree. */
  ghost predicate KeysFollow(installations: map<Id, Installation>, keys: map<PublicKey, Key>) {
    && (forall i | i in installations :: HasKey(keys, i))
    && (forall k, m | k in keys && m in keys && keys[k].installation == keys[m].installation :: k == m)
    && (forall k | k in keys && keys[k].installation in installations ::
          keys[k].current == installations[keys[k].installation].current)
  }

  ghost predicate HasKey(keys: map<PublicKey, Key>, i: Id) {
    exists k :: k in keys && keys[k].installation == i
  }

  /** A device holds a license exactly while one of its installations is current. */
  ghost predicate BoundIffCurrent(installations: map<Id, Installation>, bound: set<Id>) {
    && (forall i | i in installations && installations[i].current :: installations[i].device in bound)
    && (forall d | d in bound :: HasCurrent(installations, d))
  }

  ghost predicate HasCurrent(installations: map<Id, Installation>, d: Id) {
    exists i :: i in installations && installations[i].device == d && installations[i].current
  }

  /** Only five statuses are ever stored, ACTIVE needs a license, and an archived device is REVOKED. */
  ghost predicate Statuses(devices: map<Id, Device>, bound: set<Id>) {
    forall d | d in devices :: StatusFits(devices[d], d in bound)
  }

  ghost predicate StatusFits(device: Device, bound: bool) {
    && device.status !in {Expired, HardwareMismatch}
    && (device.status == Active ==> bound)
    && (device.archivedAt.Some? ==> device.status == Revoked)
  }

  /** A bound device belongs to the customer of its license. */
  ghost predicate OwnersMatch(devices: map<Id, Device>, bindings: map<Id, Id>, licenses: map<Id, License>) {
    forall d | d in bindings && d in devices && bindings[d] in licenses ::
      devices[d].customer == Some(licenses[bindings[d]].customer)
  }

  ghost predicate WithinCapacity(bindings: map<Id, Id>, licenses: map<Id, License>) {
    forall l | l in licenses :: |BoundTo(bindings, l)| <= licenses[l].maxDevices
  }

  /** No license of an archived customer can be used. */
  ghost predicate ArchivedIdle(customers: map<Id, Customer>, licenses: map<Id, License>, now: Time) {
    forall l | l in licenses && licenses[l].customer in customers && customers[licenses[l].customer].archivedAt.Some? ::
      !Usable(licenses[l], now)
  }

  /** A device, an installation of it and the key of that installation. */
  ghost predicate Belong(installations: map<Id, Installation>, keys: map<PublicKey, Key>, d: Id, i: Id, k: PublicKey) {
    i in installations && k in keys && installations[i].device == d && keys[k].installation == i
  }

  ghost predicate TokensFit(tokens: map<Secret, Token>, installations: map<Id, Installation>,
                            keys: map<PublicKey, Key>)
  {
    forall t | t in tokens :: Belong(installations, keys, tokens[t].device, tokens[t].installation, tokens[t].key)
  }

  ghost predicate ChallengesFit(challenges: map<Id, Challenge>, installations: map<Id, Installation>,
                                keys: map<PublicKey, Key>)
  {
    forall c | c in challenges ::
      Belong(installations, keys, challenges[c].device, challenges[c].installation, challenges[c].key)
  }

  ghost predicate SessionsFit(sessions: map<Secret, Session>, installations: map<Id, Installation>,
                              keys: map<PublicKey, Key>)
  {
    forall s | s in sessions ::
      Belong(installations, keys, sessions[s].device, sessions[s].installation, sessions[s].key)
  }

  ghost predicate Inv(db: Db, now: Time) {
    && Constraints(db)
    && KeysFollow(db.installations, db.keys)
    && BoundIffCurrent(db.installations, db.bindings.Keys)
    && Statuses(db.devices, db.bindings.Keys)
    && OwnersMatch(db.devices, db.bindings, db.licenses)
    && WithinCapacity(db.bindings, db.licenses)
    && ArchivedIdle(db.customers, db.licenses, now)
    && TokensFit(db.tokens, db.installations, db.keys)
    && ChallengesFit(db.challenges, db.installations, db.keys)
    && SessionsFit(db.sessions, db.installations, db.keys)
  }

  lemma InitInv(now: Time)
    ensures Inv(EMPTY, now)
  {
  }

  /** Time passing alone breaks nothing. */
  lemma Later(db: Db, before: Time, now: Time)
    requires Inv(db, before) && before <= now
    ensures Inv(db, now)
  {
  }

  // ---------------------------------------------------------------- changes of one table

  lemma UseKeeps(db: Db, now: Time, c: Id)
    requires Inv(db, now) && c in db.challenges
    ensures Inv(Use(db, now, c), now)
  {
  }

  lemma ChallengeKeeps(db: Db, now: Time, c: Id, row: Challenge)
    requires Inv(db, now) && c !in db.challenges
    requires Belong(db.installations, db.keys, row.device, row.installation, row.key)
    ensures Inv(db.(challenges := db.challenges[c := row]), now)
  {
  }

  lemma SignKeeps(db: Db, now: Time, s: Secret, session: Session, document: Payload)
    requires Inv(db, now) && s !in db.sessions
    requires Belong(db.installations, db.keys, session.device, session.installation, session.key)
    ensures Inv(db.(sessions := db.sessions[s := session], issued := db.issued + {document}), now)
  {
  }

  /** A device row may change in everything but its serial. */
  lemma DeviceKeeps(db: Db, now: Time, d: Id, row: Device)
    requires Inv(db, now) && d in db.devices && row.serial == db.devices[d].serial
    requires row.customer.Some? ==> row.customer.value in db.customers
    requires d in db.bindings ==> row.customer == Some(db.licenses[db.bindings[d]].customer)
    requires StatusFits(row, d in db.bindings)
    ensures Inv(db.(devices := db.devices[d := row]), now)
  {
    hide InstallationsRefer, KeysRefer, LicensesRefer, TokensRefer, ChallengesRefer, SessionsRefer, OneCurrentInstallation,
         OneCurrentKey, LicenseChecks, KeysFollow, BoundIffCurrent, WithinCapacity, ArchivedIdle, TokensFit,
         ChallengesFit, SessionsFit, StatusFits;
    assert db.devices[d := row].Keys == db.devices.Keys;
  }

  lemma NewDeviceKeeps(db: Db, now: Time, d: Id, serial: Serial, c: Option<Id>)
    requires Inv(db, now) && d !in db.devices
    requires forall e | e in db.devices :: db.devices[e].serial != serial
    requires c.Some? ==> c.value in db.customers
    ensures Inv(db.(devices := db.devices[d := Device(serial, None, Pending, c)]), now)
  {
    DeviceRefers(db, d, Device(serial, None, Pending, c));
    NewDeviceRows(db, d, Device(serial, None, Pending, c));
    hide ForeignKeys, UniqueSerials, OneCurrentInstallation, OneCurrentKey, LicenseChecks, KeysFollow, BoundIffCurrent,
         Statuses, OwnersMatch, WithinCapacity, ArchivedIdle, TokensFit, ChallengesFit, SessionsFit;
  }

  lemma DeviceRefers(db: Db, d: Id, row: Device)
    requires ForeignKeys(db) && (row.customer.Some? ==> row.customer.value in db.customers)
    ensures ForeignKeys(db.(devices := db.devices[d := row]))
  {
    hide KeysRefer, LicensesRefer;
  }

  lemma NewDeviceRows(db: Db, d: Id, row: Device)
    requires UniqueSerials(db.devices) && Statuses(db.devices, db.bindings.Keys)
    requires OwnersMatch(db.devices, db.bindings, db.licenses)
    requires BindingsRefer(db.bindings, db.devices.Keys, db.licenses.Keys)
    requires d !in db.devices && (forall e | e in db.devices :: db.devices[e].serial != row.serial)
    requires row.status == Pending && row.archivedAt.None?
    ensures var devices := db.devices[d := row];
            && UniqueSerials(devices) && Statuses(devices, db.bindings.Keys)
            && OwnersMatch(devices, db.bindings, db.licenses)
  {
  }

  lemma TokensKeep(db: Db, now: Time, tokens: map<Secret, Token>)
    requires Inv(db, now)
    requires TokensRefer(tokens, db.devices.Keys, db.installations.Keys, db.keys.Keys, db.licenses.Keys)
    requires TokensFit(tokens, db.installations, db.keys)
    ensures Inv(db.(tokens := tokens), now)
  {
  }

  lemma CustomerKeeps(db: Db, now: Time, c: Id, row: Customer)
    requires Inv(db, now)
    requires row.archivedAt.Some? ==> !HasUsableLicense(db, now, c)
    ensures Inv(db.(customers := db.customers[c := row]), now)
  {
  }

  lemma LicenseKeeps(db: Db, now: Time, l: Id, row: License)
    requires Inv(db, now)
    requires if l in db.licenses then row.customer == db.licenses[l].customer && row.maxDevices == db.licenses[l].maxDevices
             else row.customer in db.customers && row.maxDevices >= 1
    requires row.perpetual || row.expiresAt.Some?
    requires Usable(row, now) ==> ActiveCustomer(db, row.customer)
    ensures Inv(db.(licenses := db.licenses[l := row]), now)
  {
    hide DevicesRefer, InstallationsRefer, KeysRefer, ChallengesRefer, SessionsRefer, UniqueSerials,
         OneCurrentInstallation, OneCurrentKey, KeysFollow, BoundIffCurrent, Statuses, TokensFit, ChallengesFit,
         SessionsFit;
    if l !in db.licenses {
      forall d | d in db.bindings
        ensures db.bindings[d] != l
      {
        assert db.bindings[d] in db.licenses.Keys;
      }
      assert BoundTo(db.bindings, l) == {};
    }
  }

  // ---------------------------------------------------------------- installations and keys

  /** Every installation keeps its device and every key its installation. */
  ghost predicate SameParents(installations: map<Id, Installation>, keys: map<PublicKey, Key>,
                              installations': map<Id, Installation>, keys': map<PublicKey, Key>)
  {
    && (forall i | i in installations :: i in installations' && installations'[i].device == installations[i].device)
    && (forall k | k in keys :: k in keys' && keys'[k].installation == keys[k].installation)
  }

  lemma CredentialsFrame(db: Db, now: Time, installations: map<Id, Installation>, keys: map<PublicKey, Key>)
    requires Inv(db, now) && SameParents(db.installations, db.keys, installations, keys)
    ensures TokensFit(db.tokens, installations, keys)
    ensures ChallengesFit(db.challenges, installations, keys)
    ensures SessionsFit(db.sessions, installations, keys)
  {
  }

  lemma HasKeyFrame(keys: map<PublicKey, Key>, keys': map<PublicKey, Key>, i: Id)
    requires HasKey(keys, i)
    requires forall k | k in keys :: k in keys' && keys'[k].installation == keys[k].installation
    ensures HasKey(keys', i)
  {
    var k :| k in keys && keys[k].installation == i;
    assert k in keys' && keys'[k].installation == i;
  }

  lemma HasCurrentFrame(installations: map<Id, Installation>, installations': map<Id, Installation>, d: Id)
    requires HasCurrent(installations, d)
    requires forall i | i in installations && installations[i].device == d ::
               i in installations' && installations'[i] == installations[i]
    ensures HasCurrent(installations', d)
  {
    var i :| i in installations && installations[i].device == d && installations[i].current;
    assert i in installations' && installations'[i].device == d && installations'[i].current;
  }

  /** Keys stay unique per installation as long as no installation gets a second one. */
  lemma KeysFollowFrame(installations: map<Id, Installation>, keys: map<PublicKey, Key>,
                        installations': map<Id, Installation>, keys': map<PublicKey, Key>)
    requires KeysFollow(installations, keys) && SameParents(installations, keys, installations', keys')
    requires installations'.Keys == installations.Keys && keys'.Keys == keys.Keys
    requires forall k | k in keys' && keys'[k].installation in installations' ::
               keys'[k].current == installations'[keys'[k].installation].current
    ensures KeysFollow(installations', keys')
  {
    forall i | i in installations'
      ensures HasKey(keys', i)
    {
      HasKeyFrame(keys, keys', i);
    }
  }

  // ---------------------------------------------------------------- enrollment

  lemma NewKeyFollows(installations: map<Id, Installation>, keys: map<PublicKey, Key>, d: Id, i: Id, pub: PublicKey)
    requires KeysFollow(installations, keys) && KeysRefer(keys, installations.Keys)
    requires i !in installations && pub !in keys
    ensures KeysFollow(installations[i := Installation(d, false)], keys[pub := Key(i, false)])
  {
    var keys' := keys[pub := Key(i, false)];
    forall j | j in installations[i := Installation(d, false)]
      ensures HasKey(keys', j)
    {
      if j == i {
        assert keys'[pub].installation == i;
      } else {
        HasKeyFrame(keys, keys', j);
      }
    }
  }

  lemma NewInstallationIdle(installations: map<Id, Installation>, bound: set<Id>, d: Id, i: Id)
    requires BoundIffCurrent(installations, bound) && i !in installations
    ensures BoundIffCurrent(installations[i := Installation(d, false)], bound)
  {
    forall e | e in bound
      ensures HasCurrent(installations[i := Installation(d, false)], e)
    {
      HasCurrentFrame(installations, installations[i := Installation(d, false)], e);
    }
  }

  lemma InstallationRefers(db: Db, d: Id, i: Id, pub: PublicKey)
    requires ForeignKeys(db) && d in db.devices
    ensures ForeignKeys(db.(installations := db.installations[i := Installation(d, false)],
                            keys := db.keys[pub := Key(i, false)]))
  {
    hide DevicesRefer, LicensesRefer, BindingsRefer;
  }

  lemma InstallationSole(db: Db, d: Id, i: Id, pub: PublicKey)
    requires OneCurrentInstallation(db.installations) && OneCurrentKey(db.keys)
    ensures OneCurrentInstallation(db.installations[i := Installation(d, false)])
    ensures OneCurrentKey(db.keys[pub := Key(i, false)])
  {
  }

  /** A new installation comes with its key and is not current. */
  lemma InstallationKeeps(db: Db, now: Time, d: Id, i: Id, pub: PublicKey)
    requires Inv(db, now) && d in db.devices && i !in db.installations && pub !in db.keys
    ensures Inv(db.(installations := db.installations[i := Installation(d, false)],
                    keys := db.keys[pub := Key(i, false)]), now)
  {
    var installations := db.installations[i := Installation(d, false)];
    var keys := db.keys[pub := Key(i, false)];
    InstallationRefers(db, d, i, pub);
    InstallationSole(db, d, i, pub);
    hide DevicesRefer, InstallationsRefer, KeysRefer, LicensesRefer, BindingsRefer, TokensRefer, ChallengesRefer,
         SessionsRefer, UniqueSerials, OneCurrentInstallation, OneCurrentKey, LicenseChecks, KeysFollow, BoundIffCurrent,
         Statuses, OwnersMatch, WithinCapacity, ArchivedIdle, TokensFit, ChallengesFit, SessionsFit;
    NewKeyFollows(db.installations, db.keys, d, i, pub);
    NewInstallationIdle(db.installations, db.bindings.Keys, d, i);
    CredentialsFrame(db, now, installations, keys);
  }

  lemma IdentityKeeps(db: Db, now: Time, d: Id, isNew: bool, serial: Serial, i: Id, pub: PublicKey)
    requires Inv(db, now) && i !in db.installations && pub !in db.keys
    requires if isNew then d !in db.devices && forall e | e in db.devices :: db.devices[e].serial != serial
             else d in db.devices
    ensures Inv(WithIdentity(db, d, isNew, serial, i, pub), now)
    ensures var after := WithIdentity(db, d, isNew, serial, i, pub);
            d in after.devices && i in after.installations && pub in after.keys
  {
    if isNew {
      NewDeviceKeeps(db, now, d, serial, None);
      InstallationKeeps(db.(devices := db.devices[d := Device(serial, None, Pending, None)]), now, d, i, pub);
    } else {
      InstallationKeeps(db, now, d, i, pub);
    }
  }

  // ---------------------------------------------------------------- activation

  lemma BindCurrent(installations: map<Id, Installation>, bound: set<Id>, d: Id, i: Id)
    requires BoundIffCurrent(installations, bound) && i in installations && installations[i].device == d
    ensures BoundIffCurrent(installations[i := installations[i].(current := true)], bound + {d})
  {
    var installations' := installations[i := installations[i].(current := true)];
    forall e | e in bound + {d}
      ensures HasCurrent(installations', e)
    {
      if e == d {
        assert i in installations' && installations'[i].device == d && installations'[i].current;
      } else {
        HasCurrentFrame(installations, installations', e);
      }
    }
  }

  lemma BindCapacity(bindings: map<Id, Id>, licenses: map<Id, License>, d: Id, l: Id)
    requires WithinCapacity(bindings, licenses) && l in licenses
    requires d in bindings ==> bindings[d] == l
    requires d !in bindings ==> |BoundTo(bindings, l)| < licenses[l].maxDevices
    ensures WithinCapacity(bindings[d := l], licenses)
  {
    forall m | m in licenses
      ensures |BoundTo(bindings[d := l], m)| <= licenses[m].maxDevices
    {
      if m == l {
        assert BoundTo(bindings[d := l], l) == BoundTo(bindings, l) + {d};
      } else {
        assert BoundTo(bindings[d := l], m) == BoundTo(bindings, m);
      }
    }
  }

  lemma BindOwners(db: Db, now: Time, d: Id, l: Id)
    requires Inv(db, now) && d in db.devices && l in db.licenses && db.devices[d].archivedAt.None?
    ensures var devices := db.devices[d := db.devices[d].(status := Active, customer := Some(db.licenses[l].customer))];
            && OwnersMatch(devices, db.bindings[d := l], db.licenses) && UniqueSerials(devices)
            && Statuses(devices, db.bindings.Keys + {d}) && DevicesRefer(devices, db.customers.Keys)
  {
  }

  lemma BindFlags(installations: map<Id, Installation>, keys: map<PublicKey, Key>, d: Id, i: Id, k: PublicKey)
    requires KeysFollow(installations, keys) && Belong(installations, keys, d, i, k)
    requires OneCurrentInstallation(installations) && OneCurrentKey(keys)
    requires forall j | j in installations && installations[j].device == d && installations[j].current :: j == i
    ensures var installations' := installations[i := installations[i].(current := true)];
            var keys' := keys[k := keys[k].(current := true)];
            && KeysFollow(installations', keys') && SameParents(installations, keys, installations', keys')
            && OneCurrentInstallation(installations') && OneCurrentKey(keys')
            && installations'.Keys == installations.Keys && keys'.Keys == keys.Keys
  {
    var installations' := installations[i := installations[i].(current := true)];
    var keys' := keys[k := keys[k].(current := true)];
    KeysFollowFrame(installations, keys, installations', keys');
  }

  lemma BindTokens(db: Db, now: Time, t: Secret)
    requires Inv(db, now) && t in db.tokens
    ensures Inv(db.(tokens := db.tokens[t := db.tokens[t].(usedAt := Some(now))]), now)
  {
    hide KeysFollow, BoundIffCurrent, Statuses, OwnersMatch, WithinCapacity, ArchivedIdle, ChallengesFit, SessionsFit;
    TokensKeep(db, now, db.tokens[t := db.tokens[t].(usedAt := Some(now))]);
  }

  lemma BindCurrentOnly(db: Db, d: Id, i: Id)
    requires !OtherCurrent(db, d, i)
    ensures forall j | j in db.installations && db.installations[j].device == d && db.installations[j].current :: j == i
  {
  }

  lemma BindKeeps(db: Db, now: Time, t: Secret, d: Id, i: Id, k: PublicKey, l: Id)
    requires Inv(db, now) && t in db.tokens && d in db.devices && l in db.licenses
    requires Belong(db.installations, db.keys, d, i, k) && !OtherCurrent(db, d, i)
    requires db.devices[d].archivedAt.None?
    requires d in db.bindings ==> db.bindings[d] == l
    requires d !in db.bindings ==> |BoundTo(db.bindings, l)| < db.licenses[l].maxDevices
    ensures Inv(Bind(db, now, t, d, i, k, l), now)
  {
    var after := Bind(db, now, t, d, i, k, l);
    BindTokens(db, now, t);
    BindCurrentOnly(db, d, i);
    hide DevicesRefer, InstallationsRefer, KeysRefer, LicensesRefer, BindingsRefer, TokensRefer, ChallengesRefer,
         SessionsRefer, UniqueSerials, OneCurrentInstallation, OneCurrentKey, LicenseChecks, KeysFollow, BoundIffCurrent,
         Statuses, OwnersMatch, WithinCapacity, ArchivedIdle, TokensFit, ChallengesFit, SessionsFit;
    BindFlags(db.installations, db.keys, d, i, k);
    CredentialsFrame(db.(tokens := after.tokens), now, after.installations, after.keys);
    BindCurrent(db.installations, db.bindings.Keys, d, i);
    BindCapacity(db.bindings, db.licenses, d, l);
    BindOwners(db, now, d, l);
    assert after.devices.Keys == db.devices.Keys;
    assert after.bindings.Keys == db.bindings.Keys + {d};
    BindRefers(db, after, d, l);
  }

  lemma BindRefers(db: Db, after: Db, d: Id, l: Id)
    requires BindingsRefer(db.bindings, db.devices.Keys, db.licenses.Keys)
    requires InstallationsRefer(db.installations, db.devices.Keys) && KeysRefer(db.keys, db.installations.Keys)
    requires SameParents(db.installations, db.keys, after.installations, after.keys)
    requires after.installations.Keys == db.installations.Keys && after.keys.Keys == db.keys.Keys
    requires d in db.devices && l in db.licenses
    ensures BindingsRefer(db.bindings[d := l], db.devices.Keys, db.licenses.Keys)
    ensures InstallationsRefer(after.installations, db.devices.Keys)
    ensures KeysRefer(after.keys, db.installations.Keys)
  {
  }

  // ---------------------------------------------------------------- release

  lemma ReleaseCurrent(installations: map<Id, Installation>, bound: set<Id>, d: Id)
    requires BoundIffCurrent(installations, bound)
    ensures BoundIffCurrent(Released(installations, d), bound - {d})
  {
    forall e | e in bound - {d}
      ensures HasCurrent(Released(installations, d), e)
    {
      HasCurrentFrame(installations, Released(installations, d), e);
    }
  }

  lemma ReleaseCapacity(bindings: map<Id, Id>, licenses: map<Id, License>, d: Id)
    requires WithinCapacity(bindings, licenses)
    ensures WithinCapacity(bindings - {d}, licenses)
  {
    forall m | m in licenses
      ensures |BoundTo(bindings - {d}, m)| <= licenses[m].maxDevices
    {
      var fewer, all := BoundTo(bindings - {d}, m), BoundTo(bindings, m);
      assert all == fewer + (all - fewer);
    }
  }

  lemma ReleaseFlags(installations: map<Id, Installation>, keys: map<PublicKey, Key>, d: Id)
    requires KeysFollow(installations, keys)
    requires OneCurrentInstallation(installations) && OneCurrentKey(keys)
    ensures var installations' := Released(installations, d);
            var keys' := ReleasedKeys(installations, keys, d);
            && KeysFollow(installations', keys') && SameParents(installations, keys, installations', keys')
            && OneCurrentInstallation(installations') && OneCurrentKey(keys')
            && installations'.Keys == installations.Keys && keys'.Keys == keys.Keys
  {
    var installations' := Released(installations, d);
    var keys' := ReleasedKeys(installations, keys, d);
    assert installations'.Keys == installations.Keys && keys'.Keys == keys.Keys;
    KeysFollowFrame(installations, keys, installations', keys');
  }

  lemma ReleaseOwners(db: Db, now: Time, d: Id)
    requires Inv(db, now) && d in db.devices && db.devices[d].archivedAt.None?
    ensures var devices := db.devices[d := db.devices[d].(status := Pending, customer := None)];
            && OwnersMatch(devices, db.bindings - {d}, db.licenses) && UniqueSerials(devices)
            && Statuses(devices, db.bindings.Keys - {d}) && DevicesRefer(devices, db.customers.Keys)
  {
  }

  lemma ReleaseRefers(db: Db, after: Db, d: Id)
    requires BindingsRefer(db.bindings, db.devices.Keys, db.licenses.Keys)
    requires InstallationsRefer(db.installations, db.devices.Keys) && KeysRefer(db.keys, db.installations.Keys)
    requires SameParents(db.installations, db.keys, after.installations, after.keys)
    requires after.installations.Keys == db.installations.Keys && after.keys.Keys == db.keys.Keys
    ensures BindingsRefer(db.bindings - {d}, db.devices.Keys, db.licenses.Keys)
    ensures InstallationsRefer(after.installations, db.devices.Keys)
    ensures KeysRefer(after.keys, db.installations.Keys)
  {
  }

  lemma VoidedFits(db: Db, now: Time, d: Id)
    requires Inv(db, now)
    ensures Inv(db.(tokens := Voided(db.tokens, d, now)), now)
  {
    TokensKeep(db, now, Voided(db.tokens, d, now));
  }

  lemma ReleaseKeeps(db: Db, now: Time, d: Id)
    requires Inv(db, now) && d in db.devices && db.devices[d].archivedAt.None?
    ensures Inv(Release(db, now, d), now)
  {
    var after := Release(db, now, d);
    VoidedFits(db, now, d);
    ReleaseFlags(db.installations, db.keys, d);
    CredentialsFrame(db.(tokens := after.tokens), now, after.installations, after.keys);
    ReleaseCurrent(db.installations, db.bindings.Keys, d);
    ReleaseCapacity(db.bindings, db.licenses, d);
    ReleaseOwners(db, now, d);
    assert after.devices.Keys == db.devices.Keys;
    assert after.bindings.Keys == db.bindings.Keys - {d};
    ReleaseRefers(db, after, d);
  }

  // ---------------------------------------------------------------- the handlers

  /** The drawn identifier or secret happens to be taken. */
  ghost predicate Collides(db: Db, request: Request) {
    match request
    case Enroll(_, _, _, drawn) => drawn in db.devices
    case AskChallenge(_, _, _, _, drawn, _) => drawn in db.challenges
    case Verify(_, drawn) => drawn in db.sessions
    case Activate(_, _, drawn) => drawn in db.sessions
    case Heartbeat(_, drawn) => drawn in db.sessions
    case CreateCustomer(drawn) => drawn in db.customers
    case CreateLicense(_, _, _, _, drawn) => drawn in db.licenses
    case CreateDevice(_, _, drawn) => drawn in db.devices
    case Approve(_, _, _, _, _, drawn) => drawn in db.tokens
    case _ => false
  }

  /** What a handler owes: the invariant, no unhandled exception, and no constraint of the database hit
      except by drawing an identifier twice. */
  ghost predicate Sound(r: Result, now: Time, collision: bool) {
    Inv(r.db, now) && r.outcome != Crashed && (r.outcome == Conflict ==> collision)
  }

  /** A handler may end in any state that satisfies the invariant. */
  lemma CommitSound(before: Db, after: Db, reply: Reply, now: Time)
    requires Inv(after, now)
    ensures Commit(before, after, reply) == Result(after, Ok(reply))
  {
  }

  /** What the handlers rely on about a device and one of its identities. */
  lemma DeviceFacts(db: Db, now: Time, d: Id)
    requires Inv(db, now) && d in db.devices
    ensures StatusFits(db.devices[d], d in db.bindings)
    ensures LicenseFor(db, d) == if d in db.bindings then Some(db.bindings[d]) else None
    ensures db.devices[d].customer.Some? ==> db.devices[d].customer.value in db.customers
    ensures d in db.bindings ==>
              db.bindings[d] in db.licenses && db.devices[d].customer == Some(db.licenses[db.bindings[d]].customer)
  {
    assert StatusFits(db.devices[d], d in db.bindings.Keys);
    if d in db.bindings {
      assert db.bindings[d] in db.licenses.Keys;
    }
    if db.devices[d].customer.Some? {
      assert db.devices[d].customer.value in db.customers.Keys;
    }
  }

  lemma KeyFacts(db: Db, now: Time, k: PublicKey)
    requires Inv(db, now) && k in db.keys
    ensures db.keys[k].installation in db.installations
  {
    assert db.keys[k].installation in db.installations.Keys;
  }

  lemma TokenFacts(db: Db, now: Time, t: Secret)
    requires Inv(db, now) && t in db.tokens
    ensures db.tokens[t].license in db.licenses
  {
    assert db.tokens[t].license in db.licenses.Keys;
  }

  lemma CredentialFacts(db: Db, now: Time)
    requires Inv(db, now)
    ensures forall c | c in db.challenges :: db.challenges[c].device in db.devices
              && Belong(db.installations, db.keys, db.challenges[c].device, db.challenges[c].installation, db.challenges[c].key)
    ensures forall s | s in db.sessions :: db.sessions[s].device in db.devices
              && Belong(db.installations, db.keys, db.sessions[s].device, db.sessions[s].installation, db.sessions[s].key)
  {
  }

  lemma AuthorizeSound(before: Db, db: Db, cfg: Settings, now: Time, d: Id, i: Id, k: PublicKey, drawn: Secret)
    requires Inv(before, now) && Inv(db, now) && d in db.devices && Belong(db.installations, db.keys, d, i, k)
    ensures Sound(Authorize(before, db, cfg, now, d, i, k, drawn), now, drawn in db.sessions)
  {
    hide Inv, Constraints, Commit;
    DeviceFacts(db, now, d);
    var status := IdentityStatus(db, now, d, i, k);
    if status != Active {
      CommitSound(before, db, Authorized(d, status, None), now);
    } else if drawn !in db.sessions {
      var document := Document(db, cfg, now, d, i, k, LicenseFor(db, d).value);
      var session := Session(d, i, k, now + cfg.sessionSeconds * SECOND);
      SignKeeps(db, now, drawn, session, document);
      CommitSound(before, db.(sessions := db.sessions[drawn := session], issued := db.issued + {document}),
                  Authorized(d, Active, Some(document)), now);
    }
  }

  lemma EnrollingSound(db: Db, now: Time, serial: Serial, i: Id, pub: PublicKey, drawn: Id)
    requires Inv(db, now)
    ensures Sound(Enrolling(db, now, serial, i, pub, drawn), now, drawn in db.devices)
  {
    hide Inv, Constraints, Commit, IdentityStatus, WithIdentity;
    IdentifySound(db, now, serial, i, pub);
    var id := Identify(db, serial, i, pub);
    if id.Known? {
      CommitSound(db, db, Enrolled(id.device, i, IdentityStatus(db, now, id.device, i, pub)), now);
    } else if id.Unknown? {
      var found := DeviceBySerial(db, serial);
      if found.Some? || drawn !in db.devices {
        var d := if found.Some? then found.value else drawn;
        IdentityKeeps(db, now, d, found.None?, serial, i, pub);
        var after := WithIdentity(db, d, found.None?, serial, i, pub);
        CommitSound(db, after, Enrolled(d, i, IdentityStatus(after, now, d, i, pub)), now);
      }
    }
  }

  lemma IdentifySound(db: Db, now: Time, serial: Serial, i: Id, pub: PublicKey)
    requires Inv(db, now)
    ensures var r := Identify(db, serial, i, pub);
            r.Stopped? ==> r.outcome.Refused? || r.outcome.Rejected?
  {
    hide Inv;
    if pub in db.keys {
      KeyFacts(db, now, pub);
    }
  }

  lemma ChallengingSound(db: Db, cfg: Settings, now: Time, serial: Serial, i: Id, pub: PublicKey, purpose: Purpose,
                         drawn: Id, nonce: string)
    requires Inv(db, now)
    ensures Sound(Challenging(db, cfg, now, serial, i, pub, purpose, drawn, nonce), now, drawn in db.challenges)
  {
    hide Inv, Constraints, Commit;
    IdentifySound(db, now, serial, i, pub);
    var id := Identify(db, serial, i, pub);
    if id.Known? && drawn !in db.challenges {
      var expires := now + cfg.challengeSeconds * SECOND;
      var message := Message(1, cfg.audience, drawn, nonce, serial, i, pub, purpose, Seconds(expires));
      var row := Challenge(id.device, i, pub, serial, purpose, message, expires, None);
      ChallengeKeeps(db, now, drawn, row);
      CommitSound(db, db.(challenges := db.challenges[drawn := row]), Challenged(drawn, message), now);
    }
  }

  /** Everything a proof can go wrong on is answered, and an accepted proof names rows that belong together. */
  lemma ConsumeSound(db: Db, now: Time, proof: Proof, purpose: Purpose)
    requires Inv(db, now)
    ensures var r := Consume(db, now, proof, purpose);
            && (r.Denied? ==> Sound(r.result, now, false))
            && (r.Accepted? ==> Inv(r.db, now) && Belong(r.db.installations, r.db.keys, r.device, r.installation, r.key))
  {
    hide Inv;
    CredentialFacts(db, now);
    if proof.challenge in db.challenges {
      UseKeeps(db, now, proof.challenge);
    }
  }

  lemma ActivatingTokenSound(before: Db, db: Db, cfg: Settings, now: Time, t: Secret, d: Id, i: Id, k: PublicKey,
                             drawn: Secret)
    requires Inv(before, now) && Inv(db, now) && d in db.devices && Belong(db.installations, db.keys, d, i, k)
    ensures Sound(ActivatingToken(before, db, cfg, now, t, d, i, k, drawn), now, drawn in db.sessions)
  {
    hide Inv, Constraints, Commit, Authorize, OtherCurrent, Usable, ActiveCustomer, LicenseFor;
    AuthorizeSound(before, db, cfg, now, d, i, k, drawn);
    DeviceFacts(db, now, d);
    if TokenFits(db, now, t, d, i, k) {
      TokenFacts(db, now, t);
      var l := db.tokens[t].license;
      if db.devices[d].status !in {Revoked, Suspended} && !OtherCurrent(db, d, i)
         && !(d in db.bindings && db.bindings[d] != l)
         && !(d !in db.bindings && |BoundTo(db.bindings, l)| >= db.licenses[l].maxDevices) {
        BindKeeps(db, now, t, d, i, k, l);
        AuthorizeSound(before, Bind(db, now, t, d, i, k, l), cfg, now, d, i, k, drawn);
      }
    }
  }

  lemma VerifyingSound(cfg: Settings, db: Db, now: Time, proof: Proof, drawn: Secret)
    requires Inv(db, now)
    ensures Sound(Verifying(db, cfg, now, proof, drawn), now, drawn in db.sessions)
  {
    hide Inv, Authorize, Consume;
    ConsumeSound(db, now, proof, Authenticating);
    var c := Consume(db, now, proof, Authenticating);
    if c.Accepted? {
      AuthorizeSound(db, c.db, cfg, now, c.device, c.installation, c.key, drawn);
    }
  }

  lemma ActivatingSound(cfg: Settings, db: Db, now: Time, proof: Proof, t: Secret, drawn: Secret)
    requires Inv(db, now)
    ensures Sound(ActivatingDevice(db, cfg, now, proof, t, drawn), now, drawn in db.sessions)
  {
    hide Inv, ActivatingToken, Consume;
    ConsumeSound(db, now, proof, Activating);
    var c := Consume(db, now, proof, Activating);
    if c.Accepted? {
      ActivatingTokenSound(db, c.db, cfg, now, t, c.device, c.installation, c.key, drawn);
    }
  }

  lemma BeatingSound(cfg: Settings, db: Db, now: Time, s: Secret, drawn: Secret)
    requires Inv(db, now)
    ensures Sound(Beating(db, cfg, now, s, drawn), now, drawn in db.sessions)
  {
    hide Inv, Authorize;
    CredentialFacts(db, now);
    if s in db.sessions {
      var session := db.sessions[s];
      AuthorizeSound(db, db, cfg, now, session.device, session.installation, session.key, drawn);
    }
  }

  lemma CustomerStepSound(cfg: Settings, db: Db, now: Time, request: Request)
    requires Inv(db, now) && (request.CreateCustomer? || request.ArchiveCustomer? || request.RestoreCustomer?)
    ensures Sound(Step(cfg, db, now, request), now, Collides(db, request))
  {
    hide Inv, Constraints, Commit, HasUsableLicense, HasLiveDevice;
    match request
    case CreateCustomer(drawn) =>
      CustomerKeeps(db, now, drawn, Customer(None));
      CommitSound(db, db.(customers := db.customers[drawn := Customer(None)]), Done, now);
    case RestoreCustomer(c) =>
      CustomerKeeps(db, now, c, Customer(None));
      CommitSound(db, db.(customers := db.customers[c := Customer(None)]), Done, now);
    case ArchiveCustomer(c) =>
      if c in db.customers && !HasUsableLicense(db, now, c) {
        var row := Customer(Stamp(db.customers[c].archivedAt, now));
        CustomerKeeps(db, now, c, row);
        CommitSound(db, db.(customers := db.customers[c := row]), Done, now);
      }
  }

  lemma LicenseStepSound(cfg: Settings, db: Db, now: Time, request: Request)
    requires Inv(db, now) && (request.CreateLicense? || request.RenewLicense? || request.ControlLicense?)
    ensures Sound(Step(cfg, db, now, request), now, Collides(db, request))
  {
    hide Inv, Constraints, Commit, ControllingLicense;
    match request
    case CreateLicense(c, perpetual, max, until, drawn) =>
      if ActiveCustomer(db, c) && drawn !in db.licenses && max >= 1 && (perpetual || until.Some?) {
        var row := License(c, perpetual, LicenseActive, max, until);
        LicenseKeeps(db, now, drawn, row);
        CommitSound(db, db.(licenses := db.licenses[drawn := row]), Done, now);
      }
    case RenewLicense(l, until) =>
      if l in db.licenses && ActiveCustomer(db, db.licenses[l].customer) {
        var row := db.licenses[l].(expiresAt := Some(until));
        LicenseKeeps(db, now, l, row);
        CommitSound(db, db.(licenses := db.licenses[l := row]), Done, now);
      }
    case ControlLicense(l, action) => ControllingLicenseSound(db, now, l, action);
  }

  lemma ControllingLicenseSound(db: Db, now: Time, l: Id, action: LicenseAction)
    requires Inv(db, now)
    ensures Sound(ControllingLicense(db, l, action), now, false)
  {
    hide Inv, Constraints, Commit;
    if l in db.licenses && !(action.ResumeLicense? && !ActiveCustomer(db, db.licenses[l].customer)) {
      var status := match action
        case SuspendLicense => LicenseSuspended
        case RevokeLicense => LicenseRevoked
        case ResumeLicense => LicenseActive;
      var row := db.licenses[l].(status := status);
      LicenseRowFits(db, now, l);
      LicenseKeeps(db, now, l, row);
      CommitSound(db, db.(licenses := db.licenses[l := row]), Done, now);
    }
  }

  lemma LicenseRowFits(db: Db, now: Time, l: Id)
    requires Inv(db, now) && l in db.licenses
    ensures db.licenses[l].perpetual || db.licenses[l].expiresAt.Some?
  {
  }

  lemma CreatingDeviceSound(db: Db, now: Time, serial: Serial, c: Option<Id>, drawn: Id)
    requires Inv(db, now)
    ensures Sound(CreatingDevice(db, serial, c, drawn), now, drawn in db.devices)
  {
    hide Inv, Constraints, Commit;
    if DeviceBySerial(db, serial).None? && drawn !in db.devices && (c.Some? ==> ActiveCustomer(db, c.value)) {
      NewDeviceKeeps(db, now, drawn, serial, c);
      CommitSound(db, db.(devices := db.devices[drawn := Device(serial, None, Pending, c)]), Done, now);
    }
  }

  lemma UpdatingDeviceSound(db: Db, now: Time, d: Id, c: Option<Id>)
    requires Inv(db, now)
    ensures Sound(UpdatingDevice(db, d, c), now, false)
  {
    hide Inv, Constraints, Commit;
    if NotEditable(db, d).None? && (c.Some? ==> ActiveCustomer(db, c.value)) {
      DeviceFacts(db, now, d);
      var lic := LicenseFor(db, d);
      if lic.None? || c == Some(db.licenses[lic.value].customer) {
        var row := db.devices[d].(customer := c);
        DeviceKeeps(db, now, d, row);
        CommitSound(db, db.(devices := db.devices[d := row]), Done, now);
      }
    }
  }

  /** Setting archival mark and status of a device, keeping its customer. */
  lemma EditKeeps(db: Db, now: Time, d: Id, archived: Option<Time>, status: Status)
    requires Inv(db, now) && d in db.devices
    requires StatusFits(db.devices[d].(archivedAt := archived, status := status), d in db.bindings)
    ensures var after := db.(devices := db.devices[d := db.devices[d].(archivedAt := archived, status := status)]);
            Inv(after, now) && after.devices.Keys == db.devices.Keys
  {
    hide Inv;
    DeviceFacts(db, now, d);
    DeviceKeeps(db, now, d, db.devices[d].(archivedAt := archived, status := status));
  }

  lemma MarkingSound(db: Db, now: Time, d: Id, status: Status)
    requires Inv(db, now) && status in {Suspended, Revoked}
    ensures Sound(Marking(db, d, status), now, false)
  {
    hide Inv, Constraints, Commit;
    if NotEditable(db, d).None? {
      EditKeeps(db, now, d, None, status);
      CommitSound(db, db.(devices := db.devices[d := db.devices[d].(status := status)]), Done, now);
    }
  }

  lemma RestoringDeviceSound(db: Db, now: Time, d: Id)
    requires Inv(db, now)
    ensures Sound(RestoringDevice(db, d), now, false)
  {
    hide Inv, Constraints, Commit;
    if d in db.devices {
      DeviceFacts(db, now, d);
      EditKeeps(db, now, d, None, db.devices[d].status);
      CommitSound(db, db.(devices := db.devices[d := db.devices[d].(archivedAt := None)]), Done, now);
    }
  }

  lemma ArchivingDeviceSound(db: Db, now: Time, d: Id)
    requires Inv(db, now)
    ensures Sound(ArchivingDevice(db, now, d), now, false)
  {
    hide Inv, Constraints, Commit, State, Voided;
    if d in db.devices {
      var stamp := Stamp(db.devices[d].archivedAt, now);
      EditKeeps(db, now, d, stamp, Revoked);
      var middle := db.(devices := db.devices[d := db.devices[d].(archivedAt := stamp, status := Revoked)]);
      VoidedFits(middle, now, d);
      CommitSound(db, middle.(tokens := Voided(db.tokens, d, now)), Done, now);
    }
  }

  lemma ApprovingSound(db: Db, now: Time, d: Id, i: Id, pub: PublicKey, l: Id, ttl: nat, drawn: Secret)
    requires Inv(db, now)
    ensures Sound(Approving(db, now, d, i, pub, l, ttl, drawn), now, drawn in db.tokens)
  {
    hide Inv, Constraints, Commit, OtherCurrent, Usable, ActiveCustomer;
    if NotEditable(db, d).None? && Belong(db.installations, db.keys, d, i, pub) && l in db.licenses {
      DeviceFacts(db, now, d);
      var status := if db.devices[d].status != Active then ActivationRequired else Active;
      EditKeeps(db, now, d, None, status);
      var middle := db.(devices := db.devices[d := db.devices[d].(status := status)]);
      var token := RegistrationData.Token.Token(d, i, pub, l, now + ttl * SECOND, None);
      NewTokenKeeps(middle, now, drawn, token);
      CommitSound(db, middle.(tokens := db.tokens[drawn := token]), Approved(drawn), now);
    }
  }

  lemma NewTokenKeeps(db: Db, now: Time, t: Secret, token: Token)
    requires Inv(db, now) && token.device in db.devices && token.license in db.licenses
    requires Belong(db.installations, db.keys, token.device, token.installation, token.key)
    ensures Inv(db.(tokens := db.tokens[t := token]), now)
  {
    TokensKeep(db, now, db.tokens[t := token]);
  }

  lemma ReassigningSound(db: Db, now: Time, d: Id)
    requires Inv(db, now)
    ensures Sound(Reassigning(db, now, d), now, false)
  {
    hide Inv, Constraints, Commit, Release;
    if NotEditable(db, d).None? {
      ReleaseKeeps(db, now, d);
      CommitSound(db, Release(db, now, d), Done, now);
    }
  }

  /** Every request, from every state that satisfies the invariant: the invariant holds afterwards, nothing
      crashes, and no unique index or foreign key of the database ever fires. */
  lemma StepSound(cfg: Settings, db: Db, before: Time, now: Time, request: Request)
    requires Inv(db, before) && before <= now
    ensures Sound(Step(cfg, db, now, request), now, Collides(db, request))
  {
    hide Inv, Sound;
    Later(db, before, now);
    match request
    case Enroll(serial, i, pub, drawn) => EnrollingSound(db, now, serial, i, pub, drawn);
    case AskChallenge(serial, i, pub, purpose, drawn, nonce) =>
      ChallengingSound(db, cfg, now, serial, i, pub, purpose, drawn, nonce);
    case Verify(proof, drawn) => VerifyingSound(cfg, db, now, proof, drawn);
    case Activate(proof, token, drawn) => ActivatingSound(cfg, db, now, proof, token, drawn);
    case Heartbeat(s, drawn) => BeatingSound(cfg, db, now, s, drawn);
    case CreateCustomer(_) => CustomerStepSound(cfg, db, now, request);
    case ArchiveCustomer(_) => CustomerStepSound(cfg, db, now, request);
    case RestoreCustomer(_) => CustomerStepSound(cfg, db, now, request);
    case CreateLicense(_, _, _, _, _) => LicenseStepSound(cfg, db, now, request);
    case RenewLicense(_, _) => LicenseStepSound(cfg, db, now, request);
    case ControlLicense(_, _) => LicenseStepSound(cfg, db, now, request);
    case CreateDevice(serial, c, drawn) => CreatingDeviceSound(db, now, serial, c, drawn);
    case UpdateDevice(d, c) => UpdatingDeviceSound(db, now, d, c);
    case ArchiveDevice(d) => ArchivingDeviceSound(db, now, d);
    case RestoreDevice(d) => RestoringDeviceSound(db, now, d);
    case Approve(d, i, pub, l, ttl, drawn) => ApprovingSound(db, now, d, i, pub, l, ttl, drawn);
    case Suspend(d) => MarkingSound(db, now, d, Suspended);
    case Revoke(d) => MarkingSound(db, now, d, Revoked);
    case Reassign(d) => ReassigningSound(db, now, d);
  }
}
