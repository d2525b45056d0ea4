/** What the device handlers answer: exactly which devices, proofs and tokens get what, with all stamps spelled out. */
module RegistrationAccess {
  import opened Prelude
  import opened RegistrationData
  import opened RegistrationSpec
  import opened RegistrationFrames
  import opened RegistrationInvariant
  import opened RegistrationEffects
  import opened RegistrationProofs

  // ---------------------------------------------------------------- statuses

  /** The device may work: it is in service, and its license is ACTIVE and has not run out. */
  ghost predicate Entitled(db: Db, now: Time, d: Id) {
    && Editable(db, d) && db.devices[d].status == Active && d in db.bindings && db.bindings[d] in db.licenses
    && db.licenses[db.bindings[d]].status == LicenseActive
    && (db.licenses[db.bindings[d]].expiresAt.Some? ==> now < db.licenses[db.bindings[d]].expiresAt.value)
  }

  /** The effective status of a device, case by case. */
  lemma StatusExactly(db: Db, now: Time, d: Id)
    requires Inv(db, now) && d in db.devices
    ensures State(db, now, d) == Active <==> Entitled(db, now, d)
    ensures db.devices[d].archivedAt.Some? ==> State(db, now, d) == Revoked
    ensures Editable(db, d) && db.devices[d].status != Active ==> State(db, now, d) == db.devices[d].status
    ensures Editable(db, d) && db.devices[d].status == Active ==>
              && d in db.bindings && db.bindings[d] in db.licenses
              && var lic := db.licenses[db.bindings[d]];
                 && (lic.status == LicenseSuspended <==> State(db, now, d) == Suspended)
                 && (lic.status == LicenseRevoked <==> State(db, now, d) == Revoked)
                 && (lic.status == LicenseActive && lic.expiresAt.Some? && lic.expiresAt.value <= now
                     <==> State(db, now, d) == Expired)
  {
    hide Inv;
    DeviceFacts(db, now, d);
  }

  /** The status of an identity: that of its device if it is the current one; otherwise it waits for an activation if it
      has a token that can still be spent, and for an approval if not. */
  lemma IdentityStatusExactly(db: Db, now: Time, d: Id, i: Id, k: PublicKey)
    requires Inv(db, now) && d in db.devices && Belong(db.installations, db.keys, d, i, k)
    ensures var status := IdentityStatus(db, now, d, i, k);
            && (status == Active <==> Entitled(db, now, d) && db.installations[i].current)
            && (db.installations[i].current ==> status == State(db, now, d))
            && (!db.installations[i].current && Editable(db, d) ==>
                 && (status == ActivationRequired <==>
                       exists t | t in db.tokens :: && db.tokens[t].installation == i && db.tokens[t].key == k
                                                    && db.tokens[t].usedAt.None? && now < db.tokens[t].expiresAt)
                 && status in {ActivationRequired, Pending})
  {
    BoundLicense(db, now, d, i, k);
    StatusExactly(db, now, d);
    hide Inv, Entitled;
  }

  // ---------------------------------------------------------------- enrollment and challenges

  /** An identity is known exactly if serial, installation and key belong together, and new exactly if both installation
      and key are. */
  lemma IdentifiedExactly(db: Db, now: Time, serial: Serial, i: Id, pub: PublicKey)
    requires Inv(db, now)
    ensures Identify(db, serial, i, pub).Known?
       <==> && i in db.installations && pub in db.keys && db.keys[pub].installation == i
            && db.devices[db.installations[i].device].serial == serial
    ensures Identify(db, serial, i, pub).Unknown? <==> i !in db.installations && pub !in db.keys
    ensures i in db.installations ==> db.installations[i].device in db.devices
  {
    if i in db.installations {
      assert db.installations[i].device in db.devices.Keys;
    }
    if pub in db.keys {
      KeyFacts(db, now, pub);
      assert db.installations[db.keys[pub].installation].device in db.devices.Keys;
    }
    hide Inv;
  }

  /** Enrolling is answered with the device of the serial; a second enrollment changes nothing, a first one adds the
      identity, which is not current, and the device if nobody has that serial. */
  lemma EnrollTakesEffect(cfg: Settings, db: Db, now: Time, serial: Serial, i: Id, pub: PublicKey, drawn: Id)
    requires Inv(db, now) && drawn !in db.devices
    ensures var r := Step(cfg, db, now, Enroll(serial, i, pub, drawn));
            var known := Identify(db, serial, i, pub);
            && (r.outcome.Ok? <==> !known.Stopped?)
            && (r.outcome.Ok? ==>
                 && r.outcome.reply.Enrolled? && r.outcome.reply.installation == i
                 && r.outcome.reply.device in r.db.devices && r.db.devices[r.outcome.reply.device].serial == serial
                 && Belong(r.db.installations, r.db.keys, r.outcome.reply.device, i, pub))
            && (!known.Unknown? ==> r.db == db)
            && (known.Unknown? ==>
                 && NewRow(db.installations, r.db.installations, i) && !r.db.installations[i].current
                 && NewRow(db.keys, r.db.keys, pub) && !r.db.keys[pub].current
                 && (if exists d :: d in db.devices && db.devices[d].serial == serial then r.db.devices == db.devices
                     else NewRow(db.devices, r.db.devices, drawn) && FreshDevice(r.db.devices[drawn]))
                 && r.db.licenses == db.licenses && r.db.bindings == db.bindings && r.db.tokens == db.tokens
                 && r.db.customers == db.customers && SameSides(db, r.db))
  {
    hide Inv, Constraints, Commit, IdentityStatus, Identify, WithIdentity, NewRow, FreshDevice;
    Answers(cfg, db, now, Enroll(serial, i, pub, drawn));
    IdentifySound(db, now, serial, i, pub);
    if Identify(db, serial, i, pub).Unknown? {
      var found := DeviceBySerial(db, serial);
      IdentityRows(db, if found.Some? then found.value else drawn, found.None?, serial, i, pub);
    }
  }

  lemma IdentityRows(db: Db, d: Id, isNew: bool, serial: Serial, i: Id, pub: PublicKey)
    requires i !in db.installations && pub !in db.keys && (isNew <==> d !in db.devices)
    requires !isNew ==> db.devices[d].serial == serial
    ensures var after := WithIdentity(db, d, isNew, serial, i, pub);
            && d in after.devices && after.devices[d].serial == serial
            && Belong(after.installations, after.keys, d, i, pub)
            && NewRow(db.installations, after.installations, i) && !after.installations[i].current
            && NewRow(db.keys, after.keys, pub) && !after.keys[pub].current
            && (if isNew then NewRow(db.devices, after.devices, d) && FreshDevice(after.devices[d])
                else after.devices == db.devices)
            && after.licenses == db.licenses && after.bindings == db.bindings && after.tokens == db.tokens
            && after.customers == db.customers && SameSides(db, after)
  {
  }

  ghost predicate FreshDevice(device: Device) {
    device.status == Pending && device.archivedAt.None? && device.customer.None?
  }

  /** A challenge is a message about the identity that asked for it, for its purpose, good for the configured time. */
  lemma ChallengeTakesEffect(cfg: Settings, db: Db, now: Time, serial: Serial, i: Id, pub: PublicKey, purpose: Purpose,
                             drawn: Id, nonce: string)
    requires Inv(db, now) && drawn !in db.challenges
    ensures var r := Step(cfg, db, now, AskChallenge(serial, i, pub, purpose, drawn, nonce));
            && (r.outcome.Ok? <==> Identify(db, serial, i, pub).Known?)
            && (!r.outcome.Ok? ==> r.db == db)
            && (r.outcome.Ok? ==>
                 && r.outcome.reply.Challenged? && r.outcome.reply.challenge == drawn
                 && MessageIs(cfg, r.outcome.reply.message, serial, i, pub, purpose, drawn, nonce, now)
                 && SameRows(db, r.db) && r.db.sessions == db.sessions && r.db.issued == db.issued
                 && NewRow(db.challenges, r.db.challenges, drawn)
                 && var row := r.db.challenges[drawn];
                    && row.message == r.outcome.reply.message && row.purpose == purpose && row.usedAt.None?
                    && row.expiresAt == now + cfg.challengeSeconds * SECOND
                    && row.serial == serial && row.installation == i && row.key == pub
                    && row.device == db.installations[i].device)
  {
    hide Inv, Constraints, Commit;
    Answers(cfg, db, now, AskChallenge(serial, i, pub, purpose, drawn, nonce));
    IdentifySound(db, now, serial, i, pub);
  }

  ghost predicate MessageIs(cfg: Settings, m: Message, serial: Serial, i: Id, pub: PublicKey, purpose: Purpose, id: Id,
                            nonce: string, now: Time)
  {
    && m.version == 1 && m.audience == cfg.audience && m.challenge == id && m.nonce == nonce && m.purpose == purpose
    && m.serial == serial && m.installation == i && m.key == pub
    && m.expiresAt == Seconds(now + cfg.challengeSeconds * SECOND)
  }

  // ---------------------------------------------------------------- proofs

  /** The proof answers a live challenge, made for this purpose, with the signature of the challenged key. */
  ghost predicate GoodProof(db: Db, now: Time, proof: Proof, purpose: Purpose) {
    && proof.challenge in db.challenges
    && var c := db.challenges[proof.challenge];
       && c.usedAt.None? && now < c.expiresAt && c.purpose == purpose
       && proof.signature.signer == c.key && proof.signature.message == c.message
       && c.device in db.devices && c.serial == db.devices[c.device].serial
  }

  /** The challenge is marked as used now; nothing else of it and no other challenge differs. */
  ghost predicate JustUsed(db: Db, after: Db, now: Time, c: Id) {
    && c in db.challenges && OneRow(db.challenges, after.challenges, c) && after.challenges[c].usedAt == Some(now)
    && var was, later := db.challenges[c], after.challenges[c];
       && later.device == was.device && later.installation == was.installation && later.key == was.key
       && later.serial == was.serial && later.purpose == was.purpose && later.message == was.message && later.expiresAt == was.expiresAt
  }

  lemma AcceptedExactly(db: Db, now: Time, proof: Proof, purpose: Purpose)
    requires Inv(db, now)
    ensures var used := Consume(db, now, proof, purpose);
            && (used.Accepted? <==> GoodProof(db, now, proof, purpose))
            && (used.Accepted? ==>
                 && Inv(used.db, now) && Belong(db.installations, db.keys, used.device, used.installation, used.key)
                 && Belong(used.db.installations, used.db.keys, used.device, used.installation, used.key)
                 && SameRows(db, used.db) && used.db.sessions == db.sessions && used.db.issued == db.issued
                 && used.device == db.challenges[proof.challenge].device && used.device in db.devices
                 && used.installation == db.challenges[proof.challenge].installation
                 && used.key == db.challenges[proof.challenge].key)
            && (used.Accepted? ==> JustUsed(db, used.db, now, proof.challenge))
            && (used.Denied? ==> && !used.result.outcome.Ok? && used.result.db.issued == db.issued
                                 && used.result.db.sessions == db.sessions && SameRows(db, used.result.db)
                                 && (used.result.db == db || JustUsed(db, used.result.db, now, proof.challenge)))
  {
    hide Inv, Belong, Use, Sound, JustUsed, SameRows;
    KeptRows(db);
    CredentialFacts(db, now);
    ConsumeFacts(db, now, proof, purpose);
    if proof.challenge in db.challenges {
      UsedSides(db, now, proof.challenge);
    }
  }

  lemma ConsumeFacts(db: Db, now: Time, proof: Proof, purpose: Purpose)
    requires Inv(db, now)
    ensures var r := Consume(db, now, proof, purpose);
            r.Accepted? ==> Inv(r.db, now) && Belong(r.db.installations, r.db.keys, r.device, r.installation, r.key)
    ensures forall c | c in db.challenges ::
              db.challenges[c].key in db.keys && db.challenges[c].installation in db.installations
  {
    hide Inv, Consume;
    ConsumeSound(db, now, proof, purpose);
    CredentialFacts(db, now);
  }

  lemma KeptRows(db: Db)
    ensures SameRows(db, db)
  {
  }

  lemma UsedSides(db: Db, now: Time, c: Id)
    requires c in db.challenges
    ensures var used := Use(db, now, c);
            SameRows(db, used) && used.sessions == db.sessions && used.issued == db.issued && JustUsed(db, used, now, c)
  {
  }

  /** The answer to a device that proved its identity: its status, and exactly if the identity is current and the device
      entitled, a signed document and a session for the configured time. */
  ghost predicate Answered(cfg: Settings, before: Db, r: Result, now: Time, d: Id, i: Id, k: PublicKey, drawn: Secret) {
    && d in r.db.devices && i in r.db.installations && r.outcome.Ok? && r.outcome.reply.Authorized?
    && r.outcome.reply.device == d
    && (r.outcome.reply.document.Some? <==> Entitled(r.db, now, d) && r.db.installations[i].current)
    && (r.outcome.reply.document.Some? <==> r.outcome.reply.status == Active)
    && (r.outcome.reply.document.None? ==> r.db.sessions == before.sessions && r.db.issued == before.issued)
    && (r.outcome.reply.document.Some? ==>
         && var p := r.outcome.reply.document.value;
         && r.db.issued == before.issued + {p}
         && DocumentIs(cfg, p, d, r.db.devices[d].serial, i, k, r.db.bindings[d], r.db.licenses[r.db.bindings[d]], now)
         && NewRow(before.sessions, r.db.sessions, drawn)
         && SessionIs(r.db.sessions[drawn], d, i, k, now + cfg.sessionSeconds * SECOND))
  }

  lemma AuthorizeExactly(before: Db, db: Db, cfg: Settings, now: Time, d: Id, i: Id, k: PublicKey, drawn: Secret)
    requires Inv(db, now) && d in db.devices && Belong(db.installations, db.keys, d, i, k) && drawn !in db.sessions
    ensures var r := Authorize(before, db, cfg, now, d, i, k, drawn);
            && r.outcome.Ok? && SameRows(db, r.db) && r.db.challenges == db.challenges
            && Answered(cfg, db, r, now, d, i, k, drawn)
  {
    AuthorizeCommits(before, db, cfg, now, d, i, k, drawn);
    IdentityStatusExactly(db, now, d, i, k);
    BoundLicense(db, now, d, i, k);
    hide Inv, Constraints, Commit, IdentityStatus;
  }

  lemma AuthorizeCommits(before: Db, db: Db, cfg: Settings, now: Time, d: Id, i: Id, k: PublicKey, drawn: Secret)
    requires Inv(db, now) && d in db.devices && Belong(db.installations, db.keys, d, i, k) && drawn !in db.sessions
    ensures Authorize(before, db, cfg, now, d, i, k, drawn).outcome.Ok?
  {
    hide Inv, Constraints, Commit;
    DeviceFacts(db, now, d);
    var status := IdentityStatus(db, now, d, i, k);
    if status != Active {
      CommitSound(before, db, Authorized(d, status, None), now);
    } else {
      var document := Document(db, cfg, now, d, i, k, LicenseFor(db, d).value);
      var session := Session(d, i, k, now + cfg.sessionSeconds * SECOND);
      SignKeeps(db, now, drawn, session, document);
      CommitSound(before, db.(sessions := db.sessions[drawn := session], issued := db.issued + {document}),
                  Authorized(d, Active, Some(document)), now);
    }
  }

  /** A proof of identity is answered exactly if it is good; the answer changes no row. */
  lemma VerifyExactly(cfg: Settings, db: Db, now: Time, proof: Proof, drawn: Secret)
    requires Inv(db, now) && drawn !in db.sessions
    ensures var r := Step(cfg, db, now, Verify(proof, drawn));
            && (r.outcome.Ok? <==> GoodProof(db, now, proof, Authenticating))
            && (r.outcome.Ok? ==>
                 && SameRows(db, r.db) && JustUsed(db, r.db, now, proof.challenge)
                 && var c := db.challenges[proof.challenge];
                    Answered(cfg, db, r, now, c.device, c.installation, c.key, drawn))
  {
    hide Inv, Consume, Authorize, Answered, GoodProof;
    AcceptedExactly(db, now, proof, Authenticating);
    var used := Consume(db, now, proof, Authenticating);
    if used.Accepted? {
      AuthorizeExactly(db, used.db, cfg, now, used.device, used.installation, used.key, drawn);
      AnsweredFrom(cfg, used.db, db, Authorize(db, used.db, cfg, now, used.device, used.installation, used.key, drawn), now,
                   used.device, used.installation, used.key, drawn);
    }
  }

  lemma AnsweredFrom(cfg: Settings, a: Db, b: Db, r: Result, now: Time, d: Id, i: Id, k: PublicKey, drawn: Secret)
    requires a.sessions == b.sessions && a.issued == b.issued
    ensures Answered(cfg, a, r, now, d, i, k, drawn) <==> Answered(cfg, b, r, now, d, i, k, drawn)
  {
    hide Entitled, DocumentIs, SessionIs;
  }

  /** A heartbeat is answered exactly while its session lasts and its identity is current; it changes no row. */
  lemma HeartbeatExactly(cfg: Settings, db: Db, now: Time, s: Secret, drawn: Secret)
    requires Inv(db, now) && drawn !in db.sessions
    ensures var r := Step(cfg, db, now, Heartbeat(s, drawn));
            && (r.outcome.Ok? <==> && s in db.sessions && now < db.sessions[s].expiresAt
                                   && db.sessions[s].installation in db.installations
                                   && db.installations[db.sessions[s].installation].current)
            && (!r.outcome.Ok? ==> r.db == db)
            && (r.outcome.Ok? ==>
                 && SameRows(db, r.db)
                 && Answered(cfg, db, r, now, db.sessions[s].device, db.sessions[s].installation, db.sessions[s].key, drawn))
  {
    hide Inv, Authorize, Answered;
    CredentialFacts(db, now);
    if s in db.sessions {
      var x := db.sessions[s];
      AuthorizeExactly(db, db, cfg, now, x.device, x.installation, x.key, drawn);
      BoundLicense(db, now, x.device, x.installation, x.key);
    }
  }

  // ---------------------------------------------------------------- activation

  /** What an activation with an unused token needs besides a good proof. */
  ghost predicate Spendable(db: Db, now: Time, t: Secret, d: Id, i: Id, k: PublicKey) {
    && t in db.tokens && db.tokens[t].usedAt.None? && now < db.tokens[t].expiresAt
    && db.tokens[t].device == d && db.tokens[t].installation == i && db.tokens[t].key == k
    && d in db.devices && db.devices[d].status !in {Revoked, Suspended}
    && db.tokens[t].license in db.licenses
    && var l := db.tokens[t].license;
       && db.licenses[l].status == LicenseActive
       && (db.licenses[l].expiresAt.Some? ==> now < db.licenses[l].expiresAt.value)
       && (if d in db.bindings then db.bindings[d] == l
           else |set e | e in db.bindings && db.bindings[e] == l| < db.licenses[l].maxDevices)
       && forall j | j in db.installations && db.installations[j].device == d && db.installations[j].current :: j == i
  }

  /** The rows of an activation: device, identity, binding and token, and nothing else. */
  ghost predicate ActivatedRows(db: Db, after: Db, now: Time, t: Secret, d: Id, i: Id, k: PublicKey)
    requires t in db.tokens && db.tokens[t].license in db.licenses && d in db.devices
  {
    && OneRow(db.devices, after.devices, d) && after.devices[d].status == Active
    && after.devices[d].customer == Some(db.licenses[db.tokens[t].license].customer)
    && after.devices[d].serial == db.devices[d].serial && after.devices[d].archivedAt == db.devices[d].archivedAt
    && OneRow(db.installations, after.installations, i) && after.installations[i] == Installation(d, true)
    && OneRow(db.keys, after.keys, k) && after.keys[k] == Key(i, true)
    && OneRow(db.bindings, after.bindings, d) && after.bindings[d] == db.tokens[t].license
    && OneRow(db.tokens, after.tokens, t) && after.tokens[t].usedAt == Some(now)
    && after.tokens[t].expiresAt == db.tokens[t].expiresAt && after.tokens[t].device == d
    && after.tokens[t].installation == i && after.tokens[t].key == k && after.tokens[t].license == db.tokens[t].license
    && after.licenses == db.licenses && after.customers == db.customers
  }

  lemma BoundRows(db: Db, now: Time, t: Secret, d: Id, i: Id, k: PublicKey)
    requires TokenFits(db, now, t, d, i, k) && d in db.devices && Belong(db.installations, db.keys, d, i, k)
    requires db.tokens[t].license in db.licenses
    ensures ActivatedRows(db, Bind(db, now, t, d, i, k, db.tokens[t].license), now, t, d, i, k)
  {
  }

  lemma SpendExactly(before: Db, db: Db, cfg: Settings, now: Time, t: Secret, d: Id, i: Id, k: PublicKey, drawn: Secret)
    requires Inv(db, now) && d in db.devices && Belong(db.installations, db.keys, d, i, k) && drawn !in db.sessions
    requires t in db.tokens ==> db.tokens[t].usedAt.None?
    ensures var r := ActivatingToken(before, db, cfg, now, t, d, i, k, drawn);
            && (r.outcome.Ok? <==> Spendable(db, now, t, d, i, k))
            && (r.outcome.Ok? ==>
                 && ActivatedRows(db, r.db, now, t, d, i, k) && r.outcome.reply.Authorized?
                 && r.db.challenges == db.challenges && r.outcome.reply.document.Some?
                 && Answered(cfg, db, r, now, d, i, k, drawn))
  {
    SpendableMeans(db, now, t, d, i, k);
    if Spendable(db, now, t, d, i, k) {
      DeviceFacts(db, now, d);
      var l := db.tokens[t].license;
      var bound := Bind(db, now, t, d, i, k, l);
      BindKeeps(db, now, t, d, i, k, l);
      BoundRows(db, now, t, d, i, k);
      AuthorizeExactly(before, bound, cfg, now, d, i, k, drawn);
      RowsOnward(db, bound, Authorize(before, bound, cfg, now, d, i, k, drawn).db, now, t, d, i, k);
      AnsweredFrom(cfg, bound, db, Authorize(before, bound, cfg, now, d, i, k, drawn), now, d, i, k, drawn);
      ActiveNow(db, Authorize(before, bound, cfg, now, d, i, k, drawn).db, now, t, d, i, k);
    }
    hide Inv, Authorize, Answered, Spendable, ActivatedRows, Bind, Usable, ActiveCustomer, OtherCurrent, BoundTo;
  }

  lemma SpendableMeans(db: Db, now: Time, t: Secret, d: Id, i: Id, k: PublicKey)
    requires Inv(db, now) && d in db.devices
    ensures Spendable(db, now, t, d, i, k)
       <==> && TokenFits(db, now, t, d, i, k) && db.tokens[t].usedAt.None? && db.devices[d].status !in {Revoked, Suspended}
            && db.tokens[t].license in db.licenses && Usable(db.licenses[db.tokens[t].license], now)
            && ActiveCustomer(db, db.licenses[db.tokens[t].license].customer)
            && (d in db.bindings ==> db.bindings[d] == db.tokens[t].license)
            && (d !in db.bindings ==>
                 |BoundTo(db.bindings, db.tokens[t].license)| < db.licenses[db.tokens[t].license].maxDevices)
            && !OtherCurrent(db, d, i)
  {
    hide Inv;
    if t in db.tokens && db.tokens[t].license in db.licenses {
      UsableCustomer(db, now, db.tokens[t].license);
      assert BoundTo(db.bindings, db.tokens[t].license) == set e | e in db.bindings && db.bindings[e] == db.tokens[t].license;
    }
  }

  lemma RowsOnward(db: Db, a: Db, b: Db, now: Time, t: Secret, d: Id, i: Id, k: PublicKey)
    requires t in db.tokens && db.tokens[t].license in db.licenses && d in db.devices
    requires ActivatedRows(db, a, now, t, d, i, k) && SameRows(a, b)
    ensures ActivatedRows(db, b, now, t, d, i, k)
  {
    hide OneRow;
  }

  lemma ActiveNow(db: Db, after: Db, now: Time, t: Secret, d: Id, i: Id, k: PublicKey)
    requires Inv(db, now) && Spendable(db, now, t, d, i, k) && ActivatedRows(db, after, now, t, d, i, k)
    ensures Entitled(after, now, d) && after.installations[i].current
  {
    hide Inv;
    DeviceFacts(db, now, d);
  }

  /** An activation with a token not used before succeeds exactly for a good proof and a token that can be spent on its
      device and identity; then the device is ACTIVE under the token's license and gets a document at once. */
  lemma ActivateExactly(cfg: Settings, db: Db, now: Time, proof: Proof, t: Secret, drawn: Secret)
    requires Inv(db, now) && drawn !in db.sessions && (t in db.tokens ==> db.tokens[t].usedAt.None?)
    ensures var r := Step(cfg, db, now, Activate(proof, t, drawn));
            && (r.outcome.Ok? <==>
                 && GoodProof(db, now, proof, Activating)
                 && var c := db.challenges[proof.challenge]; Spendable(db, now, t, c.device, c.installation, c.key))
            && (r.outcome.Ok? ==>
                 && var c := db.challenges[proof.challenge];
                 && ActivatedRows(db, r.db, now, t, c.device, c.installation, c.key)
                 && JustUsed(db, r.db, now, proof.challenge)
                 && r.outcome.reply.Authorized? && r.outcome.reply.document.Some?
                 && Answered(cfg, db, r, now, c.device, c.installation, c.key, drawn))
  {
    hide Inv, Consume, ActivatingToken, Answered, GoodProof, Spendable, ActivatedRows;
    AcceptedExactly(db, now, proof, Activating);
    var used := Consume(db, now, proof, Activating);
    if used.Accepted? {
      var d, i, k := used.device, used.installation, used.key;
      var r := ActivatingToken(db, used.db, cfg, now, t, d, i, k, drawn);
      SpendExactly(db, used.db, cfg, now, t, d, i, k, drawn);
      AnsweredFrom(cfg, used.db, db, r, now, d, i, k, drawn);
      SpendableFrom(used.db, db, now, t, d, i, k);
      if r.outcome.Ok? {
        RowsFrom(used.db, db, r.db, now, t, d, i, k);
      }
    }
  }

  lemma SpendableFrom(a: Db, b: Db, now: Time, t: Secret, d: Id, i: Id, k: PublicKey)
    requires SameRows(a, b)
    ensures Spendable(a, now, t, d, i, k) <==> Spendable(b, now, t, d, i, k)
    ensures Spendable(a, now, t, d, i, k) ==> t in a.tokens && a.tokens[t].license in a.licenses && d in a.devices
  {
  }

  lemma RowsFrom(a: Db, b: Db, after: Db, now: Time, t: Secret, d: Id, i: Id, k: PublicKey)
    requires SameRows(a, b) && t in a.tokens && a.tokens[t].license in a.licenses && d in a.devices
    ensures ActivatedRows(a, after, now, t, d, i, k) <==> ActivatedRows(b, after, now, t, d, i, k)
  {
    hide OneRow;
  }
}
