/** What each handler of registration-server/app/main.py does to the database, as a function.
    Every handler is one transaction and reads the clock once. */
module RegistrationSpec {
  import opened Prelude
  import opened RegistrationData

  // ---------------------------------------------------------------- what the database itself enforces

  predicate DevicesRefer(devices: map<Id, Device>, customers: set<Id>) {
    forall d | d in devices && devices[d].customer.Some? :: devices[d].customer.value in customers
  }

  predicate InstallationsRefer(installations: map<Id, Installation>, devices: set<Id>) {
    forall i | i in installations :: installations[i].device in devices
  }

  predicate KeysRefer(keys: map<PublicKey, Key>, installations: set<Id>) {
    forall k | k in keys :: keys[k].installation in installations
  }

  predicate LicensesRefer(licenses: map<Id, License>, customers: set<Id>) {
    forall l | l in licenses :: licenses[l].customer in customers
  }

  predicate BindingsRefer(bindings: map<Id, Id>, devices: set<Id>, licenses: set<Id>) {
    forall d | d in bindings :: d in devices && bindings[d] in licenses
  }

  predicate TokensRefer(tokens: map<Secret, Token>, devices: set<Id>, installations: set<Id>, keys: set<PublicKey>,
                        licenses: set<Id>)
  {
    forall t | t in tokens ::
      && tokens[t].device in devices && tokens[t].installation in installations
      && tokens[t].key in keys && tokens[t].license in licenses
  }

  predicate ChallengesRefer(challenges: map<Id, Challenge>, devices: set<Id>, installations: set<Id>,
                            keys: set<PublicKey>)
  {
    forall c | c in challenges ::
      && challenges[c].device in devices && challenges[c].installation in installations && challenges[c].key in keys
  }

  predicate SessionsRefer(sessions: map<Secret, Session>, devices: set<Id>, installations: set<Id>,
                          keys: set<PublicKey>)
  {
    forall s | s in sessions ::
      && sessions[s].device in devices && sessions[s].installation in installations && sessions[s].key in keys
  }

  predicate ForeignKeys(db: Db) {
    && DevicesRefer(db.devices, db.customers.Keys)
    && InstallationsRefer(db.installations, db.devices.Keys)
    && KeysRefer(db.keys, db.installations.Keys)
    && LicensesRefer(db.licenses, db.customers.Keys)
    && BindingsRefer(db.bindings, db.devices.Keys, db.licenses.Keys)
    && TokensRefer(db.tokens, db.devices.Keys, db.installations.Keys, db.keys.Keys, db.licenses.Keys)
    && ChallengesRefer(db.challenges, db.devices.Keys, db.installations.Keys, db.keys.Keys)
    && SessionsRefer(db.sessions, db.devices.Keys, db.installations.Keys, db.keys.Keys)
  }

  /** The unique column `serial`. */
  predicate UniqueSerials(devices: map<Id, Device>) {
    forall d, e | d in devices && e in devices && devices[d].serial == devices[e].serial :: d == e
  }

  /** The partial unique index `one_current_installation`. */
  predicate OneCurrentInstallation(installations: map<Id, Installation>) {
    forall i, j | i in installations && j in installations && installations[i].current && installations[j].current
      && installations[i].device == installations[j].device :: i == j
  }

  /** The partial unique index `one_current_key`. */
  predicate OneCurrentKey(keys: map<PublicKey, Key>) {
    forall k, m | k in keys && m in keys && keys[k].current && keys[m].current
      && keys[k].installation == keys[m].installation :: k == m
  }

  predicate LicenseChecks(licenses: map<Id, License>) {
    forall l | l in licenses :: licenses[l].maxDevices >= 1 && (licenses[l].perpetual || licenses[l].expiresAt.Some?)
  }

  predicate Constraints(db: Db) {
    && ForeignKeys(db) && UniqueSerials(db.devices) && OneCurrentInstallation(db.installations)
    && OneCurrentKey(db.keys) && LicenseChecks(db.licenses)
  }

  /** The end of a handler: the transaction commits unless the database refuses it. */
  function Commit(before: Db, after: Db, reply: Reply): (r: Result)
    ensures Constraints(after) <==> r == Result(after, Ok(reply))
    ensures !Constraints(after) <==> r == Result(before, Conflict)
  {
    if Constraints(after) then Result(after, Ok(reply)) else Result(before, Conflict)
  }

  // ---------------------------------------------------------------- shared pieces of the handlers

  function LicenseFor(db: Db, d: Id): Option<Id> {
    if d in db.bindings && db.bindings[d] in db.licenses then Some(db.bindings[d]) else None
  }

  predicate Lapsed(lic: License, now: Time) {
    lic.expiresAt.Some? && lic.expiresAt.value <= now
  }

  /** A license that is ACTIVE and has not run out. */
  predicate Usable(lic: License, now: Time) {
    lic.status == LicenseActive && !Lapsed(lic, now)
  }

  predicate ActiveCustomer(db: Db, c: Id) {
    c in db.customers && db.customers[c].archivedAt.None?
  }

  function State(db: Db, now: Time, d: Id): Status
    requires d in db.devices
  {
    var device := db.devices[d];
    if device.archivedAt.Some? then Revoked
    else if device.status in {Revoked, Suspended, Pending, ActivationRequired} then device.status
    else
      match LicenseFor(db, d)
      case None => ActivationRequired
      case Some(l) =>
        match db.licenses[l].status
        case LicenseSuspended => Suspended
        case LicenseRevoked => Revoked
        case LicenseActive => if Lapsed(db.licenses[l], now) then Expired else Active
  }

  predicate Open(t: Token, now: Time) {
    t.usedAt.None? && t.expiresAt > now
  }

  predicate TokenWaiting(db: Db, now: Time, i: Id, k: PublicKey) {
    exists t | t in db.tokens ::
      db.tokens[t].installation == i && db.tokens[t].key == k && Open(db.tokens[t], now)
  }

  function IdentityStatus(db: Db, now: Time, d: Id, i: Id, k: PublicKey): Status
    requires d in db.devices && i in db.installations && k in db.keys
  {
    if db.devices[d].archivedAt.Some? then Revoked
    else if !db.installations[i].current || !db.keys[k].current then
      if TokenWaiting(db, now, i, k) then ActivationRequired else Pending
    else State(db, now, d)
  }

  datatype Identified =
    | Known(device: Id, installation: Id, key: PublicKey)
    | Unknown
    | Stopped(outcome: Outcome)

  /** `identity`: match a claimed serial, installation and key against the stored ones. */
  function Identify(db: Db, serial: Serial, i: Id, pub: PublicKey): (r: Identified)
    ensures r.Known? ==>
              && i in db.installations && pub in db.keys && db.keys[pub].installation == i
              && r == Known(db.installations[i].device, i, pub)
              && r.device in db.devices && db.devices[r.device].serial == serial
    ensures r.Unknown? ==> i !in db.installations && pub !in db.keys
  {
    if i in db.installations then
      var d := db.installations[i].device;
      if d !in db.devices then Stopped(Refused(404))
      else if db.devices[d].serial != serial then Stopped(Rejected(403, "HARDWARE_MISMATCH"))
      else if pub !in db.keys || db.keys[pub].installation != i then Stopped(Rejected(403, "IDENTITY_MISMATCH"))
      else Known(d, i, pub)
    else if pub in db.keys then
      if db.keys[pub].installation !in db.installations then Stopped(Crashed)
      else if db.installations[db.keys[pub].installation].device !in db.devices then Stopped(Refused(404))
      else Stopped(Rejected(403, "KEY_REUSE"))
    else Unknown
  }

  ghost function DeviceBySerial(db: Db, serial: Serial): (r: Option<Id>)
    ensures r.Some? ==> r.value in db.devices && db.devices[r.value].serial == serial
    ensures r.None? ==> forall d | d in db.devices :: db.devices[d].serial != serial
  {
    if exists d :: d in db.devices && db.devices[d].serial == serial
    then var d :| d in db.devices && db.devices[d].serial == serial; Some(d)
    else None
  }

  datatype Consumed =
    | Accepted(db: Db, device: Id, installation: Id, key: PublicKey)
    | Denied(result: Result)

  function Use(db: Db, now: Time, c: Id): Db
    requires c in db.challenges
  {
    db.(challenges := db.challenges[c := db.challenges[c].(usedAt := Some(now))])
  }

  /** `consume`: a challenge is spent by the first proof that names it, whatever the proof is worth. */
  function Consume(db: Db, now: Time, proof: Proof, purpose: Purpose): (r: Consumed)
    ensures r.Accepted? ==>
              && proof.challenge in db.challenges && r.db == Use(db, now, proof.challenge)
              && r.device in db.devices && r.installation in db.installations && r.key in db.keys
  {
    if proof.challenge !in db.challenges then Denied(Result(db, Rejected(401, "INVALID_OR_REPLAYED_CHALLENGE")))
    else
      var c := db.challenges[proof.challenge];
      if c.usedAt.Some? || c.expiresAt <= now then
        Denied(Result(db, Rejected(401, "INVALID_OR_REPLAYED_CHALLENGE")))
      else
        var spent := Use(db, now, proof.challenge);
        if c.device !in db.devices then Denied(Result(db, Refused(404)))
        else if c.purpose != purpose then Denied(Result(spent, Rejected(401, "WRONG_CHALLENGE_PURPOSE")))
        else if c.key !in db.keys then Denied(Result(db, Crashed))
        else if proof.signature != Signature(c.key, c.message) then
          Denied(Result(spent, Rejected(401, "INVALID_SIGNATURE")))
        else if c.serial != db.devices[c.device].serial then Denied(Result(spent, Rejected(403, "HARDWARE_MISMATCH")))
        else if c.installation !in db.installations then Denied(Result(db, Crashed))
        else Accepted(spent, c.device, c.installation, c.key)
  }

  function Deadline(cfg: Settings, now: Time, lic: License): Time {
    var grace := now + cfg.graceSeconds * SECOND;
    if lic.expiresAt.Some? && lic.expiresAt.value < grace then lic.expiresAt.value else grace
  }

  function Document(db: Db, cfg: Settings, now: Time, d: Id, i: Id, k: PublicKey, l: Id): Payload
    requires d in db.devices && l in db.licenses
  {
    Payload(1, cfg.audience, d, db.devices[d].serial, i, k, l, Active, Seconds(now),
            Seconds(Deadline(cfg, now, db.licenses[l])))
  }

  /** `authorize`: report the status; sign a document and open a session exactly when it is ACTIVE.
      `before` is the database a rollback returns to. */
  function Authorize(before: Db, db: Db, cfg: Settings, now: Time, d: Id, i: Id, k: PublicKey,
                     freshSession: Secret): Result
    requires d in db.devices && i in db.installations && k in db.keys
  {
    var status := IdentityStatus(db, now, d, i, k);
    if status != Active then Commit(before, db, Authorized(d, status, None))
    else if LicenseFor(db, d).None? then Result(before, Crashed)
    else if freshSession in db.sessions then Result(before, Conflict)
    else
      var document := Document(db, cfg, now, d, i, k, LicenseFor(db, d).value);
      var session := Session(d, i, k, now + cfg.sessionSeconds * SECOND);
      Commit(before, db.(sessions := db.sessions[freshSession := session], issued := db.issued + {document}),
             Authorized(d, Active, Some(document)))
  }

  // ---------------------------------------------------------------- device handlers

  function WithIdentity(db: Db, d: Id, isNew: bool, serial: Serial, i: Id, pub: PublicKey): Db {
    db.(devices := if isNew then db.devices[d := Device(serial, None, Pending, None)] else db.devices,
        installations := db.installations[i := Installation(d, false)],
        keys := db.keys[pub := Key(i, false)])
  }

  ghost function Enrolling(db: Db, now: Time, serial: Serial, i: Id, pub: PublicKey, freshDevice: Id): Result {
    match Identify(db, serial, i, pub)
    case Stopped(outcome) => Result(db, outcome)
    case Known(d, _, _) => Commit(db, db, Enrolled(d, i, IdentityStatus(db, now, d, i, pub)))
    case Unknown =>
      var found := DeviceBySerial(db, serial);
      if found.None? && freshDevice in db.devices then Result(db, Conflict)
      else
        var d := if found.Some? then found.value else freshDevice;
        var after := WithIdentity(db, d, found.None?, serial, i, pub);
        Commit(db, after, Enrolled(d, i, IdentityStatus(after, now, d, i, pub)))
  }

  function Challenging(db: Db, cfg: Settings, now: Time, serial: Serial, i: Id, pub: PublicKey, purpose: Purpose,
                       drawn: Id, nonce: string): Result
  {
    match Identify(db, serial, i, pub)
    case Stopped(outcome) => Result(db, outcome)
    case Unknown => Result(db, Refused(404))
    case Known(d, _, _) =>
      if drawn in db.challenges then Result(db, Conflict)
      else
        var expires := now + cfg.challengeSeconds * SECOND;
        var message := Message(1, cfg.audience, drawn, nonce, serial, i, pub, purpose, Seconds(expires));
        var row := Challenge(d, i, pub, serial, purpose, message, expires, None);
        Commit(db, db.(challenges := db.challenges[drawn := row]), Challenged(drawn, message))
  }

  function Verifying(db: Db, cfg: Settings, now: Time, proof: Proof, freshSession: Secret): Result {
    match Consume(db, now, proof, Authenticating)
    case Denied(result) => result
    case Accepted(spent, d, i, k) => Authorize(db, spent, cfg, now, d, i, k, freshSession)
  }

  /** The devices a license is bound to. */
  function BoundTo(bindings: map<Id, Id>, l: Id): set<Id> {
    set d | d in bindings && bindings[d] == l
  }

  predicate OtherCurrent(db: Db, d: Id, i: Id) {
    exists j | j in db.installations :: db.installations[j].device == d && db.installations[j].current && j != i
  }

  predicate TokenFits(db: Db, now: Time, t: Secret, d: Id, i: Id, k: PublicKey) {
    && t in db.tokens && db.tokens[t].expiresAt > now
    && db.tokens[t].device == d && db.tokens[t].installation == i && db.tokens[t].key == k
  }

  /** The writes of a successful activation. */
  function Bind(db: Db, now: Time, t: Secret, d: Id, i: Id, k: PublicKey, l: Id): Db
    requires t in db.tokens && d in db.devices && i in db.installations && k in db.keys && l in db.licenses
  {
    db.(bindings := db.bindings[d := l],
        installations := db.installations[i := db.installations[i].(current := true)],
        keys := db.keys[k := db.keys[k].(current := true)],
        devices := db.devices[d := db.devices[d].(status := Active, customer := Some(db.licenses[l].customer))],
        tokens := db.tokens[t := db.tokens[t].(usedAt := Some(now))])
  }

  function StatusKind(s: Status): string {
    if s == Revoked then "REVOKED" else "SUSPENDED"
  }

  function ActivatingToken(before: Db, db: Db, cfg: Settings, now: Time, t: Secret, d: Id, i: Id, k: PublicKey,
                           freshSession: Secret): Result
    requires d in db.devices && i in db.installations && k in db.keys
  {
    if !TokenFits(db, now, t, d, i, k) then Result(db, Rejected(401, "INVALID_ACTIVATION_TOKEN"))
    else
      var token := db.tokens[t];
      if token.usedAt.Some? then
        if db.installations[i].current && db.keys[k].current && db.devices[d].status == Active then
          if LicenseFor(db, d).None? then Result(before, Crashed)
          else if LicenseFor(db, d).value == token.license then Authorize(before, db, cfg, now, d, i, k, freshSession)
          else Result(db, Rejected(409, "TOKEN_ALREADY_USED"))
        else Result(db, Rejected(409, "TOKEN_ALREADY_USED"))
      else if db.devices[d].status in {Revoked, Suspended} then
        Result(db, Rejected(403, StatusKind(db.devices[d].status)))
      else if token.license !in db.licenses then Result(before, Crashed)
      else
        var l := token.license;
        if !ActiveCustomer(db, db.licenses[l].customer) then Result(before, Refused(409))
        else if !Usable(db.licenses[l], now) then Result(db, Rejected(403, "LICENSE_UNAVAILABLE"))
        else if d in db.bindings && db.bindings[d] != l then Result(db, Rejected(409, "ADMIN_REASSIGNMENT_REQUIRED"))
        else if d !in db.bindings && |BoundTo(db.bindings, l)| >= db.licenses[l].maxDevices then
          Result(db, Rejected(409, "LICENSE_CAPACITY_REACHED"))
        else if OtherCurrent(db, d, i) then Result(db, Rejected(409, "ADMIN_RECOVERY_REQUIRED"))
        else Authorize(before, Bind(db, now, t, d, i, k, l), cfg, now, d, i, k, freshSession)
  }

  function ActivatingDevice(db: Db, cfg: Settings, now: Time, proof: Proof, t: Secret, freshSession: Secret): Result {
    match Consume(db, now, proof, Activating)
    case Denied(result) => result
    case Accepted(spent, d, i, k) => ActivatingToken(db, spent, cfg, now, t, d, i, k, freshSession)
  }

  function Beating(db: Db, cfg: Settings, now: Time, s: Secret, freshSession: Secret): Result {
    if s !in db.sessions || db.sessions[s].expiresAt <= now then Result(db, Refused(401))
    else
      var session := db.sessions[s];
      if session.device !in db.devices then Result(db, Refused(404))
      else if session.installation !in db.installations || session.key !in db.keys then Result(db, Crashed)
      else if !db.installations[session.installation].current || !db.keys[session.key].current then
        Result(db, Refused(403))
      else Authorize(db, db, cfg, now, session.device, session.installation, session.key, freshSession)
  }

  // ---------------------------------------------------------------- administrator handlers

  function CreatingCustomer(db: Db, drawn: Id): Result {
    if drawn in db.customers then Result(db, Conflict)
    else Commit(db, db.(customers := db.customers[drawn := Customer(None)]), Done)
  }

  predicate HasUsableLicense(db: Db, now: Time, c: Id) {
    exists l | l in db.licenses :: db.licenses[l].customer == c && Usable(db.licenses[l], now)
  }

  predicate HasLiveDevice(db: Db, c: Id) {
    exists d | d in db.devices ::
      && db.devices[d].customer == Some(c) && db.devices[d].archivedAt.None?
      && db.devices[d].status in {Active, Suspended}
  }

  function Stamp(was: Option<Time>, now: Time): Option<Time> {
    if was.Some? then was else Some(now)
  }

  function ArchivingCustomer(db: Db, now: Time, c: Id): Result {
    if c !in db.customers then Result(db, Refused(404))
    else if HasUsableLicense(db, now, c) then Result(db, Refused(409))
    else if HasLiveDevice(db, c) then Result(db, Refused(409))
    else
      Commit(db, db.(customers := db.customers[c := Customer(Stamp(db.customers[c].archivedAt, now))]), Done)
  }

  function RestoringCustomer(db: Db, c: Id): Result {
    if c !in db.customers then Result(db, Refused(404))
    else Commit(db, db.(customers := db.customers[c := Customer(None)]), Done)
  }

  function CreatingLicense(db: Db, now: Time, c: Id, perpetual: bool, maxDevices: nat, until: Option<Time>,
                           drawn: Id): Result
  {
    if !(1 <= maxDevices <= 100000) then Result(db, Refused(422))
    else if !ActiveCustomer(db, c) then Result(db, Refused(404))
    else if !perpetual && until.None? then Result(db, Refused(422))
    else if until.Some? && until.value <= now then Result(db, Refused(422))
    else if drawn in db.licenses then Result(db, Conflict)
    else
      var row := License(c, perpetual, LicenseActive, maxDevices, until);
      Commit(db, db.(licenses := db.licenses[drawn := row]), Done)
  }

  function RenewingLicense(db: Db, now: Time, l: Id, until: Time): Result {
    if l !in db.licenses then Result(db, Refused(404))
    else if !ActiveCustomer(db, db.licenses[l].customer) then Result(db, Refused(409))
    else if db.licenses[l].status == LicenseRevoked || until <= now then Result(db, Refused(409))
    else Commit(db, db.(licenses := db.licenses[l := db.licenses[l].(expiresAt := Some(until))]), Done)
  }

  function ControllingLicense(db: Db, l: Id, action: LicenseAction): Result {
    if l !in db.licenses then Result(db, Refused(404))
    else if db.licenses[l].status == LicenseRevoked then Result(db, Refused(409))
    else if action.ResumeLicense? && !ActiveCustomer(db, db.licenses[l].customer) then Result(db, Refused(409))
    else
      var status := match action
        case SuspendLicense => LicenseSuspended
        case RevokeLicense => LicenseRevoked
        case ResumeLicense => LicenseActive;
      Commit(db, db.(licenses := db.licenses[l := db.licenses[l].(status := status)]), Done)
  }

  ghost function CreatingDevice(db: Db, serial: Serial, c: Option<Id>, drawn: Id): Result {
    if DeviceBySerial(db, serial).Some? then Result(db, Refused(409))
    else if c.Some? && !ActiveCustomer(db, c.value) then Result(db, Refused(409))
    else if drawn in db.devices then Result(db, Conflict)
    else Commit(db, db.(devices := db.devices[drawn := Device(serial, None, Pending, c)]), Done)
  }

  /** `editable_device`: the error that keeps an administrator off a device, if any. */
  function NotEditable(db: Db, d: Id): Option<Outcome> {
    if d !in db.devices then Some(Refused(404))
    else if db.devices[d].archivedAt.Some? then Some(Refused(409))
    else None
  }

  function UpdatingDevice(db: Db, d: Id, c: Option<Id>): Result {
    var stop := NotEditable(db, d);
    if stop.Some? then Result(db, stop.value)
    else if LicenseFor(db, d).Some? && c != Some(db.licenses[LicenseFor(db, d).value].customer) then
      Result(db, Refused(409))
    else if c.Some? && !ActiveCustomer(db, c.value) then Result(db, Refused(409))
    else Commit(db, db.(devices := db.devices[d := db.devices[d].(customer := c)]), Done)
  }

  /** Every unused token of the device runs out now. */
  function Voided(tokens: map<Secret, Token>, d: Id, now: Time): map<Secret, Token> {
    map t | t in tokens ::
      if tokens[t].device == d && tokens[t].usedAt.None? then tokens[t].(expiresAt := now) else tokens[t]
  }

  function ArchivingDevice(db: Db, now: Time, d: Id): Result {
    if d !in db.devices then Result(db, Refused(404))
    else if State(db, now, d) == Active then Result(db, Refused(409))
    else
      var row := db.devices[d].(archivedAt := Stamp(db.devices[d].archivedAt, now), status := Revoked);
      Commit(db, db.(devices := db.devices[d := row], tokens := Voided(db.tokens, d, now)), Done)
  }

  function RestoringDevice(db: Db, d: Id): Result {
    if d !in db.devices then Result(db, Refused(404))
    else Commit(db, db.(devices := db.devices[d := db.devices[d].(archivedAt := None)]), Done)
  }

  function Approving(db: Db, now: Time, d: Id, i: Id, pub: PublicKey, l: Id, ttl: nat, drawn: Secret): Result {
    var stop := NotEditable(db, d);
    if !(60 <= ttl <= 86400) then Result(db, Refused(422))
    else if stop.Some? then Result(db, stop.value)
    else if db.devices[d].status in {Revoked, Suspended} then Result(db, Refused(409))
    else if i !in db.installations || db.installations[i].device != d
            || pub !in db.keys || db.keys[pub].installation != i || l !in db.licenses then Result(db, Refused(422))
    else if OtherCurrent(db, d, i) then Result(db, Refused(409))
    else if exists k | k in db.keys :: db.keys[k].installation == i && db.keys[k].current && k != pub then
      Result(db, Refused(409))
    else if !ActiveCustomer(db, db.licenses[l].customer) then Result(db, Refused(409))
    else if !Usable(db.licenses[l], now) then Result(db, Refused(409))
    else if drawn in db.tokens then Result(db, Conflict)
    else
      var token := RegistrationData.Token.Token(d, i, pub, l, now + ttl * SECOND, None);
      var status := if db.devices[d].status != Active then ActivationRequired else Active;
      Commit(db, db.(tokens := db.tokens[drawn := token], devices := db.devices[d := db.devices[d].(status := status)]),
             Approved(drawn))
  }

  function Marking(db: Db, d: Id, status: Status): Result {
    var stop := NotEditable(db, d);
    if stop.Some? then Result(db, stop.value)
    else Commit(db, db.(devices := db.devices[d := db.devices[d].(status := status)]), Done)
  }

  function Released(installations: map<Id, Installation>, d: Id): map<Id, Installation> {
    map i | i in installations ::
      if installations[i].device == d then installations[i].(current := false) else installations[i]
  }

  predicate KeyOf(installations: map<Id, Installation>, key: Key, d: Id) {
    key.installation in installations && installations[key.installation].device == d
  }

  function ReleasedKeys(installations: map<Id, Installation>, keys: map<PublicKey, Key>, d: Id): map<PublicKey, Key> {
    map k | k in keys :: if KeyOf(installations, keys[k], d) then keys[k].(current := false) else keys[k]
  }

  function Release(db: Db, now: Time, d: Id): Db
    requires d in db.devices
  {
    db.(installations := Released(db.installations, d),
        keys := ReleasedKeys(db.installations, db.keys, d),
        tokens := Voided(db.tokens, d, now),
        bindings := db.bindings - {d},
        devices := db.devices[d := db.devices[d].(status := Pending, customer := None)])
  }

  function Reassigning(db: Db, now: Time, d: Id): Result {
    var stop := NotEditable(db, d);
    if stop.Some? then Result(db, stop.value) else Commit(db, Release(db, now, d), Done)
  }

  // ---------------------------------------------------------------- the transition function

  ghost function Step(cfg: Settings, db: Db, now: Time, request: Request): Result {
    match request
    case Enroll(serial, i, pub, drawn) => Enrolling(db, now, serial, i, pub, drawn)
    case AskChallenge(serial, i, pub, purpose, drawn, nonce) =>
      Challenging(db, cfg, now, serial, i, pub, purpose, drawn, nonce)
    case Verify(proof, drawn) => Verifying(db, cfg, now, proof, drawn)
    case Activate(proof, token, drawn) => ActivatingDevice(db, cfg, now, proof, token, drawn)
    case Heartbeat(session, drawn) => Beating(db, cfg, now, session, drawn)
    case CreateCustomer(drawn) => CreatingCustomer(db, drawn)
    case ArchiveCustomer(c) => ArchivingCustomer(db, now, c)
    case RestoreCustomer(c) => RestoringCustomer(db, c)
    case CreateLicense(c, perpetual, max, until, drawn) => CreatingLicense(db, now, c, perpetual, max, until, drawn)
    case RenewLicense(l, until) => RenewingLicense(db, now, l, until)
    case ControlLicense(l, action) => ControllingLicense(db, l, action)
    case CreateDevice(serial, c, drawn) => CreatingDevice(db, serial, c, drawn)
    case UpdateDevice(d, c) => UpdatingDevice(db, d, c)
    case ArchiveDevice(d) => ArchivingDevice(db, now, d)
    case RestoreDevice(d) => RestoringDevice(db, d)
    case Approve(d, i, pub, l, ttl, drawn) => Approving(db, now, d, i, pub, l, ttl, drawn)
    case Suspend(d) => Marking(db, d, Suspended)
    case Revoke(d) => Marking(db, d, Revoked)
    case Reassign(d) => Reassigning(db, now, d)
  }
}
