/** The handlers of registration-server/app/main.py as methods that update the tables in place. Each is proved
    to do exactly what RegistrationSpec says it does, rollbacks included. */
module RegistrationServer {
  import opened Prelude
  import opened RegistrationData
  import opened RegistrationSpec
  import opened RegistrationFrames
  import opened RegistrationInvariant

  function Retired(keys: map<PublicKey, Key>, i: Id): map<PublicKey, Key> {
    map k | k in keys :: if keys[k].installation == i then keys[k].(current := false) else keys[k]
  }

  predicate FromDevice(request: Request) {
    request.Enroll? || request.AskChallenge? || request.Verify? || request.Activate? || request.Heartbeat?
  }

  class Server {
    const cfg: Settings
    var customers: map<Id, Customer>
    var devices: map<Id, Device>
    var installations: map<Id, Installation>
    var keys: map<PublicKey, Key>
    var licenses: map<Id, License>
    var bindings: map<Id, Id>
    var tokens: map<Secret, Token>
    var challenges: map<Id, Challenge>
    var sessions: map<Secret, Session>
    var issued: set<Payload>

    function Tables(): Db
      reads this
    {
      Db(customers, devices, installations, keys, licenses, bindings, tokens, challenges, sessions, issued)
    }

    constructor (cfg: Settings)
      ensures this.cfg == cfg && Tables() == EMPTY
    {
      this.cfg := cfg;
      customers, devices, installations, keys, licenses := map[], map[], map[], map[], map[];
      bindings, tokens, challenges, sessions, issued := map[], map[], map[], map[], {};
    }

    // -------------------------------------------------------------- transactions

    method Rollback(saved: Db)
      modifies this
      ensures Tables() == saved
    {
      customers, devices, installations, keys := saved.customers, saved.devices, saved.installations, saved.keys;
      licenses, bindings, tokens := saved.licenses, saved.bindings, saved.tokens;
      challenges, sessions, issued := saved.challenges, saved.sessions, saved.issued;
    }

    method End(saved: Db, reply: Reply) returns (outcome: Outcome)
      modifies this
      ensures Result(Tables(), outcome) == Commit(saved, old(Tables()), reply)
    {
      if Constraints(Tables()) {
        outcome := Ok(reply);
      } else {
        Rollback(saved);
        outcome := Conflict;
      }
    }

    // -------------------------------------------------------------- queries and shared steps

    method FindDevice(serial: Serial) returns (r: Option<Id>)
      requires UniqueSerials(devices)
      ensures r == DeviceBySerial(Tables(), serial)
    {
      if d :| d in devices && devices[d].serial == serial {
        r := Some(d);
      } else {
        r := None;
      }
    }

    /** Spend the challenge, then judge the proof. On failure `outcome` is set and the tables are final. */
    method ConsumeChallenge(now: Time, proof: Proof, purpose: Purpose) returns (accepted: bool, c: Challenge, outcome: Outcome)
      modifies this
      ensures var r := Consume(old(Tables()), now, proof, purpose);
              && accepted == r.Accepted?
              && (r.Accepted? ==> Tables() == r.db && c.device == r.device && c.installation == r.installation && c.key == r.key)
              && (r.Denied? ==> Result(Tables(), outcome) == r.result)
    {
      hide Constraints, Commit;
      var saved := Tables();
      accepted, outcome := false, Rejected(401, "INVALID_OR_REPLAYED_CHALLENGE");
      c := Challenge(0, 0, 0, 0, purpose, proof.signature.message, 0, None);
      if proof.challenge !in challenges {
        return;
      }
      c := challenges[proof.challenge];
      if c.usedAt.Some? || c.expiresAt <= now {
        return;
      }
      challenges := challenges[proof.challenge := c.(usedAt := Some(now))];
      if c.device !in devices {
        Rollback(saved);
        outcome := Refused(404);
      } else if c.purpose != purpose {
        outcome := Rejected(401, "WRONG_CHALLENGE_PURPOSE");
      } else if c.key !in keys {
        Rollback(saved);
        outcome := Crashed;
      } else if proof.signature != Signature(c.key, c.message) {
        outcome := Rejected(401, "INVALID_SIGNATURE");
      } else if c.serial != devices[c.device].serial {
        outcome := Rejected(403, "HARDWARE_MISMATCH");
      } else if c.installation !in installations {
        Rollback(saved);
        outcome := Crashed;
      } else {
        accepted := true;
      }
    }

    /** Report the identity's status; an ACTIVE one gets a signed document and a session. */
    method AuthorizeIdentity(saved: Db, now: Time, d: Id, i: Id, k: PublicKey, drawn: Secret) returns (outcome: Outcome)
      requires d in devices && i in installations && k in keys
      modifies this
      ensures Result(Tables(), outcome) == Authorize(saved, old(Tables()), cfg, now, d, i, k, drawn)
    {
      hide Constraints, Commit, State;
      var status := IdentityStatus(Tables(), now, d, i, k);
      if status != Active {
        outcome := End(saved, Authorized(d, status, None));
        return;
      }
      var lic := LicenseFor(Tables(), d);
      if lic.None? {
        Rollback(saved);
        return Crashed;
      }
      var expires := now + cfg.graceSeconds * SECOND;
      if licenses[lic.value].expiresAt.Some? && licenses[lic.value].expiresAt.value < expires {
        expires := licenses[lic.value].expiresAt.value;
      }
      var payload := Payload(1, cfg.audience, d, devices[d].serial, i, k, lic.value, Active, Seconds(now), Seconds(expires));
      issued := issued + {payload};
      if drawn in sessions {
        Rollback(saved);
        return Conflict;
      }
      sessions := sessions[drawn := Session(d, i, k, now + cfg.sessionSeconds * SECOND)];
      outcome := End(saved, Authorized(d, Active, Some(payload)));
    }

    method VoidTokens(d: Id, now: Time)
      modifies this`tokens
      ensures tokens == Voided(old(tokens), d, now)
    {
      var before := tokens;
      var matching := set t | t in tokens && tokens[t].device == d && tokens[t].usedAt.None?;
      RowsExist(matching);
      var rows: seq<Secret> :| Lists(rows, matching);
      for n := 0 to |rows|
        invariant tokens.Keys == before.Keys
        invariant forall t | t in before ::
                    tokens[t] == if t in rows[..n] then before[t].(expiresAt := now) else before[t]
      {
        tokens := tokens[rows[n] := tokens[rows[n]].(expiresAt := now)];
      }
      assert rows[..|rows|] == rows;
      ghost var goal := Voided(before, d, now);
      assert forall t | t in before :: t in rows <==> t in matching;
      assert forall t | t in before :: tokens[t] == goal[t];
      assert tokens.Keys == goal.Keys;
    }

    // -------------------------------------------------------------- device handlers

    method StoreIdentity(d: Id, isNew: bool, serial: Serial, i: Id, pub: PublicKey)
      requires !isNew ==> d in devices
      modifies this
      ensures Tables() == WithIdentity(old(Tables()), d, isNew, serial, i, pub)
      ensures d in devices && i in installations && pub in keys
    {
      if isNew {
        devices := devices[d := Device(serial, None, Pending, None)];
      }
      installations := installations[i := Installation(d, false)];
      keys := keys[pub := Key(i, false)];
    }

    method EnrollDevice(now: Time, serial: Serial, i: Id, pub: PublicKey, drawn: Id) returns (outcome: Outcome)
      requires UniqueSerials(devices)
      modifies this
      ensures Result(Tables(), outcome) == Enrolling(old(Tables()), now, serial, i, pub, drawn)
    {
      hide Constraints, Commit, IdentityStatus, Identify, DeviceBySerial, WithIdentity;
      var saved := Tables();
      var id := Identify(saved, serial, i, pub);
      match id {
        case Stopped(stop) =>
          outcome := stop;
        case Known(d, _, _) =>
          outcome := End(saved, Enrolled(d, i, IdentityStatus(Tables(), now, d, i, pub)));
        case Unknown =>
          var found := FindDevice(serial);
          if found.None? && drawn in devices {
            return Conflict;
          }
          var d := if found.Some? then found.value else drawn;
          StoreIdentity(d, found.None?, serial, i, pub);
          outcome := End(saved, Enrolled(d, i, IdentityStatus(Tables(), now, d, i, pub)));
      }
    }

    method IssueChallenge(now: Time, serial: Serial, i: Id, pub: PublicKey, purpose: Purpose, drawn: Id, nonce: string)
      returns (outcome: Outcome)
      modifies this
      ensures Result(Tables(), outcome) == Challenging(old(Tables()), cfg, now, serial, i, pub, purpose, drawn, nonce)
    {
      hide Constraints, Commit;
      var saved := Tables();
      var id := Identify(saved, serial, i, pub);
      match id
      case Stopped(stop) => return stop;
      case Unknown => return Refused(404);
      case Known(d, _, _) =>
        var expires := now + cfg.challengeSeconds * SECOND;
        var message := Message(1, cfg.audience, drawn, nonce, serial, i, pub, purpose, Seconds(expires));
        if drawn in challenges {
          return Conflict;
        }
        challenges := challenges[drawn := Challenge(d, i, pub, serial, purpose, message, expires, None)];
        outcome := End(saved, Challenged(drawn, message));
    }

    method VerifyDevice(now: Time, proof: Proof, drawn: Secret) returns (outcome: Outcome)
      modifies this
      ensures Result(Tables(), outcome) == Verifying(old(Tables()), cfg, now, proof, drawn)
    {
      hide Constraints, Commit, IdentityStatus, Authorize, Consume;
      var saved := Tables();
      var accepted, c, stop := ConsumeChallenge(now, proof, Authenticating);
      if !accepted {
        return stop;
      }
      outcome := AuthorizeIdentity(saved, now, c.device, c.installation, c.key, drawn);
    }

    method ActivateDevice(now: Time, proof: Proof, t: Secret, drawn: Secret) returns (outcome: Outcome)
      modifies this
      ensures Result(Tables(), outcome) == ActivatingDevice(old(Tables()), cfg, now, proof, t, drawn)
    {
      hide Constraints, Commit, Consume, ActivatingToken;
      var saved := Tables();
      var accepted, c, stop := ConsumeChallenge(now, proof, Activating);
      if !accepted {
        return stop;
      }
      outcome := SpendToken(saved, now, t, c.device, c.installation, c.key, drawn);
    }

    /** The writes of a successful activation. */
    method BindIdentity(now: Time, t: Secret, d: Id, i: Id, k: PublicKey, l: Id)
      requires t in tokens && d in devices && i in installations && k in keys && l in licenses
      requires d in bindings ==> bindings[d] == l
      modifies this
      ensures Tables() == Bind(old(Tables()), now, t, d, i, k, l)
      ensures d in devices && i in installations && k in keys
    {
      if d !in bindings {
        bindings := bindings[d := l];
      }
      installations := installations[i := installations[i].(current := true)];
      keys := keys[k := keys[k].(current := true)];
      devices := devices[d := devices[d].(status := Active)];
      devices := devices[d := devices[d].(customer := Some(licenses[l].customer))];
      tokens := tokens[t := tokens[t].(usedAt := Some(now))];
    }

    method SpendToken(saved: Db, now: Time, t: Secret, d: Id, i: Id, k: PublicKey, drawn: Secret) returns (outcome: Outcome)
      requires d in devices && i in installations && k in keys
      modifies this
      ensures Result(Tables(), outcome) == ActivatingToken(saved, old(Tables()), cfg, now, t, d, i, k, drawn)
    {
      hide Constraints, Commit, Authorize, Usable, ActiveCustomer, OtherCurrent, LicenseFor, Bind;
      if || t !in tokens || tokens[t].expiresAt <= now || tokens[t].device != d || tokens[t].installation != i
         || tokens[t].key != k
      {
        return Rejected(401, "INVALID_ACTIVATION_TOKEN");
      }
      if tokens[t].usedAt.Some? {
        if installations[i].current && keys[k].current && devices[d].status == Active {
          var held := LicenseFor(Tables(), d);
          if held.None? {
            Rollback(saved);
            return Crashed;
          }
          if held.value == tokens[t].license {
            outcome := AuthorizeIdentity(saved, now, d, i, k, drawn);
            return;
          }
        }
        return Rejected(409, "TOKEN_ALREADY_USED");
      }
      if devices[d].status in {Revoked, Suspended} {
        return Rejected(403, StatusKind(devices[d].status));
      }
      var l := tokens[t].license;
      if l !in licenses {
        Rollback(saved);
        return Crashed;
      }
      if !ActiveCustomer(Tables(), licenses[l].customer) {
        Rollback(saved);
        return Refused(409);
      }
      if !Usable(licenses[l], now) {
        return Rejected(403, "LICENSE_UNAVAILABLE");
      }
      if d in bindings && bindings[d] != l {
        return Rejected(409, "ADMIN_REASSIGNMENT_REQUIRED");
      }
      if d !in bindings && |BoundTo(bindings, l)| >= licenses[l].maxDevices {
        return Rejected(409, "LICENSE_CAPACITY_REACHED");
      }
      if OtherCurrent(Tables(), d, i) {
        return Rejected(409, "ADMIN_RECOVERY_REQUIRED");
      }
      BindIdentity(now, t, d, i, k, l);
      outcome := AuthorizeIdentity(saved, now, d, i, k, drawn);
    }

    method HeartbeatDevice(now: Time, s: Secret, drawn: Secret) returns (outcome: Outcome)
      modifies this
      ensures Result(Tables(), outcome) == Beating(old(Tables()), cfg, now, s, drawn)
    {
      hide Constraints, Commit, IdentityStatus, Authorize;
      if s !in sessions || sessions[s].expiresAt <= now {
        return Refused(401);
      }
      var d, i, k := sessions[s].device, sessions[s].installation, sessions[s].key;
      if d !in devices {
        return Refused(404);
      }
      if i !in installations || k !in keys {
        return Crashed;
      }
      if !installations[i].current || !keys[k].current {
        return Refused(403);
      }
      outcome := AuthorizeIdentity(Tables(), now, d, i, k, drawn);
    }

    // -------------------------------------------------------------- administrator handlers

    method AddCustomer(drawn: Id) returns (outcome: Outcome)
      modifies this
      ensures Result(Tables(), outcome) == CreatingCustomer(old(Tables()), drawn)
    {
      hide Constraints, Commit;
      var saved := Tables();
      if drawn in customers {
        return Conflict;
      }
      customers := customers[drawn := Customer(None)];
      outcome := End(saved, Done);
    }

    method ArchiveOneCustomer(now: Time, c: Id) returns (outcome: Outcome)
      modifies this
      ensures Result(Tables(), outcome) == ArchivingCustomer(old(Tables()), now, c)
    {
      hide Constraints, Commit, HasUsableLicense, HasLiveDevice;
      var saved := Tables();
      if c !in customers {
        return Refused(404);
      }
      if HasUsableLicense(Tables(), now, c) || HasLiveDevice(Tables(), c) {
        return Refused(409);
      }
      customers := customers[c := Customer(Stamp(customers[c].archivedAt, now))];
      outcome := End(saved, Done);
    }

    method RestoreOneCustomer(c: Id) returns (outcome: Outcome)
      modifies this
      ensures Result(Tables(), outcome) == RestoringCustomer(old(Tables()), c)
    {
      hide Constraints, Commit;
      var saved := Tables();
      if c !in customers {
        return Refused(404);
      }
      customers := customers[c := Customer(None)];
      outcome := End(saved, Done);
    }

    method AddLicense(now: Time, c: Id, perpetual: bool, max: nat, until: Option<Time>, drawn: Id) returns (outcome: Outcome)
      modifies this
      ensures Result(Tables(), outcome) == CreatingLicense(old(Tables()), now, c, perpetual, max, until, drawn)
    {
      hide Constraints, Commit;
      var saved := Tables();
      if !(1 <= max <= 100000) {
        return Refused(422);
      }
      if c !in customers || customers[c].archivedAt.Some? {
        return Refused(404);
      }
      if (!perpetual && until.None?) || (until.Some? && until.value <= now) {
        return Refused(422);
      }
      if drawn in licenses {
        return Conflict;
      }
      licenses := licenses[drawn := License(c, perpetual, LicenseActive, max, until)];
      outcome := End(saved, Done);
    }

    method ExtendLicense(now: Time, l: Id, until: Time) returns (outcome: Outcome)
      modifies this
      ensures Result(Tables(), outcome) == RenewingLicense(old(Tables()), now, l, until)
    {
      hide Constraints, Commit;
      var saved := Tables();
      if l !in licenses {
        return Refused(404);
      }
      if !ActiveCustomer(Tables(), licenses[l].customer) {
        return Refused(409);
      }
      if licenses[l].status == LicenseRevoked || until <= now {
        return Refused(409);
      }
      licenses := licenses[l := licenses[l].(expiresAt := Some(until))];
      outcome := End(saved, Done);
    }

    method SetLicense(l: Id, action: LicenseAction) returns (outcome: Outcome)
      modifies this
      ensures Result(Tables(), outcome) == ControllingLicense(old(Tables()), l, action)
    {
      hide Constraints, Commit;
      var saved := Tables();
      if l !in licenses {
        return Refused(404);
      }
      if licenses[l].status == LicenseRevoked {
        return Refused(409);
      }
      if action.ResumeLicense? && !ActiveCustomer(Tables(), licenses[l].customer) {
        return Refused(409);
      }
      match action {
        case SuspendLicense => licenses := licenses[l := licenses[l].(status := LicenseSuspended)];
        case RevokeLicense => licenses := licenses[l := licenses[l].(status := LicenseRevoked)];
        case ResumeLicense => licenses := licenses[l := licenses[l].(status := LicenseActive)];
      }
      outcome := End(saved, Done);
    }

    method AddDevice(serial: Serial, c: Option<Id>, drawn: Id) returns (outcome: Outcome)
      requires UniqueSerials(devices)
      modifies this
      ensures Result(Tables(), outcome) == CreatingDevice(old(Tables()), serial, c, drawn)
    {
      hide Constraints, Commit;
      var saved := Tables();
      var found := FindDevice(serial);
      if found.Some? {
        return Refused(409);
      }
      if c.Some? && !ActiveCustomer(Tables(), c.value) {
        return Refused(409);
      }
      if drawn in devices {
        return Conflict;
      }
      devices := devices[drawn := Device(serial, None, Pending, c)];
      outcome := End(saved, Done);
    }

    method ChangeDevice(d: Id, c: Option<Id>) returns (outcome: Outcome)
      modifies this
      ensures Result(Tables(), outcome) == UpdatingDevice(old(Tables()), d, c)
    {
      hide Constraints, Commit;
      var saved := Tables();
      var stop := NotEditable(Tables(), d);
      if stop.Some? {
        return stop.value;
      }
      var lic := LicenseFor(Tables(), d);
      if lic.Some? && c != Some(licenses[lic.value].customer) {
        return Refused(409);
      }
      if c.Some? && !ActiveCustomer(Tables(), c.value) {
        return Refused(409);
      }
      devices := devices[d := devices[d].(customer := c)];
      outcome := End(saved, Done);
    }

    method ArchiveOneDevice(now: Time, d: Id) returns (outcome: Outcome)
      modifies this
      ensures Result(Tables(), outcome) == ArchivingDevice(old(Tables()), now, d)
    {
      hide Constraints, Commit, State, Voided;
      var saved := Tables();
      if d !in devices {
        return Refused(404);
      }
      if State(Tables(), now, d) == Active {
        return Refused(409);
      }
      devices := devices[d := devices[d].(archivedAt := Stamp(devices[d].archivedAt, now), status := Revoked)];
      VoidTokens(d, now);
      outcome := End(saved, Done);
    }

    method RestoreOneDevice(d: Id) returns (outcome: Outcome)
      modifies this
      ensures Result(Tables(), outcome) == RestoringDevice(old(Tables()), d)
    {
      hide Constraints, Commit;
      var saved := Tables();
      if d !in devices {
        return Refused(404);
      }
      devices := devices[d := devices[d].(archivedAt := None)];
      outcome := End(saved, Done);
    }

    method ApproveDevice(now: Time, d: Id, i: Id, pub: PublicKey, l: Id, ttl: nat, drawn: Secret) returns (outcome: Outcome)
      modifies this
      ensures Result(Tables(), outcome) == Approving(old(Tables()), now, d, i, pub, l, ttl, drawn)
    {
      hide Constraints, Commit, OtherCurrent, Usable, ActiveCustomer;
      var saved := Tables();
      if !(60 <= ttl <= 86400) {
        return Refused(422);
      }
      var stop := NotEditable(Tables(), d);
      if stop.Some? {
        return stop.value;
      }
      if devices[d].status in {Revoked, Suspended} {
        return Refused(409);
      }
      if i !in installations || installations[i].device != d || pub !in keys || keys[pub].installation != i || l !in licenses {
        return Refused(422);
      }
      if OtherCurrent(Tables(), d, i) {
        return Refused(409);
      }
      if exists k :: k in keys && keys[k].installation == i && keys[k].current && k != pub {
        return Refused(409);
      }
      if !ActiveCustomer(Tables(), licenses[l].customer) {
        return Refused(409);
      }
      if !Usable(licenses[l], now) {
        return Refused(409);
      }
      if drawn in tokens {
        return Conflict;
      }
      tokens := tokens[drawn := RegistrationData.Token.Token(d, i, pub, l, now + ttl * SECOND, None)];
      if devices[d].status != Active {
        devices := devices[d := devices[d].(status := ActivationRequired)];
      } else {
        assert devices == devices[d := devices[d].(status := Active)];
      }
      outcome := End(saved, Approved(drawn));
    }

    method MarkDevice(d: Id, status: Status) returns (outcome: Outcome)
      modifies this
      ensures Result(Tables(), outcome) == Marking(old(Tables()), d, status)
    {
      hide Constraints, Commit;
      var saved := Tables();
      var stop := NotEditable(Tables(), d);
      if stop.Some? {
        return stop.value;
      }
      devices := devices[d := devices[d].(status := status)];
      outcome := End(saved, Done);
    }

    /** The inner loop of `reassign`: retire the keys of one installation. */
    method RetireKeys(i: Id)
      modifies this`keys
      ensures keys == Retired(old(keys), i)
    {
      var before := keys;
      var matching := set k | k in keys && keys[k].installation == i;
      RowsExist(matching);
      var rows: seq<PublicKey> :| Lists(rows, matching);
      for n := 0 to |rows|
        invariant keys.Keys == before.Keys
        invariant forall k | k in before :: keys[k] == if k in rows[..n] then before[k].(current := false) else before[k]
      {
        keys := keys[rows[n] := keys[rows[n]].(current := false)];
      }
      assert rows[..|rows|] == rows;
      ghost var goal := Retired(before, i);
      assert forall k | k in before :: k in rows <==> k in matching;
      assert forall k | k in before :: keys[k] == goal[k];
      assert keys.Keys == goal.Keys;
    }

    /** The outer loop of `reassign`: retire every installation of the device together with its keys. */
    method RetireInstallations(d: Id)
      modifies this`installations, this`keys
      ensures installations == Released(old(installations), d)
      ensures keys == ReleasedKeys(old(installations), old(keys), d)
    {
      var before, keysBefore := installations, keys;
      var matching := set i | i in installations && installations[i].device == d;
      RowsExist(matching);
      var rows: seq<Id> :| Lists(rows, matching);
      for n := 0 to |rows|
        invariant installations.Keys == before.Keys && keys.Keys == keysBefore.Keys
        invariant forall i | i in before ::
                    installations[i] == if i in rows[..n] then before[i].(current := false) else before[i]
        invariant forall k | k in keysBefore ::
                    keys[k] == if keysBefore[k].installation in rows[..n] then keysBefore[k].(current := false)
                               else keysBefore[k]
      {
        installations := installations[rows[n] := installations[rows[n]].(current := false)];
        RetireKeys(rows[n]);
      }
      assert rows[..|rows|] == rows;
      ghost var goal, goalKeys := Released(before, d), ReleasedKeys(before, keysBefore, d);
      assert forall i | i in before :: i in rows <==> i in matching;
      assert forall i | i in before :: installations[i] == goal[i];
      assert installations.Keys == goal.Keys;
      assert forall k | k in keysBefore :: keysBefore[k].installation in rows <==> KeyOf(before, keysBefore[k], d);
      assert forall k | k in keysBefore :: keys[k] == goalKeys[k];
      assert keys.Keys == goalKeys.Keys;
    }

    method ReassignDevice(now: Time, d: Id) returns (outcome: Outcome)
      modifies this
      ensures Result(Tables(), outcome) == Reassigning(old(Tables()), now, d)
    {
      hide Constraints, Commit, Released, ReleasedKeys, Voided;
      var saved := Tables();
      var stop := NotEditable(Tables(), d);
      if stop.Some? {
        return stop.value;
      }
      RetireInstallations(d);
      VoidTokens(d, now);
      bindings := bindings - {d};
      devices := devices[d := devices[d].(status := Pending)];
      devices := devices[d := devices[d].(customer := None)];
      assert Tables() == Release(saved, now, d);
      outcome := End(saved, Done);
    }

    // -------------------------------------------------------------- requests

    method ServeDevice(now: Time, request: Request) returns (outcome: Outcome)
      requires UniqueSerials(devices) && FromDevice(request)
      modifies this
      ensures Result(Tables(), outcome) == Step(cfg, old(Tables()), now, request)
    {
      hide Enrolling, Challenging, Verifying, ActivatingDevice, Beating;
      match request
      case Enroll(serial, i, pub, drawn) => outcome := EnrollDevice(now, serial, i, pub, drawn);
      case AskChallenge(serial, i, pub, purpose, drawn, nonce) =>
        outcome := IssueChallenge(now, serial, i, pub, purpose, drawn, nonce);
      case Verify(proof, drawn) => outcome := VerifyDevice(now, proof, drawn);
      case Activate(proof, token, drawn) => outcome := ActivateDevice(now, proof, token, drawn);
      case Heartbeat(session, drawn) => outcome := HeartbeatDevice(now, session, drawn);
    }

    method ServeOwner(now: Time, request: Request) returns (outcome: Outcome)
      requires AboutOwner(request)
      modifies this
      ensures Result(Tables(), outcome) == Step(cfg, old(Tables()), now, request)
    {
      hide CreatingCustomer, ArchivingCustomer, RestoringCustomer, CreatingLicense, RenewingLicense, ControllingLicense;
      match request
      case CreateCustomer(drawn) => outcome := AddCustomer(drawn);
      case ArchiveCustomer(c) => outcome := ArchiveOneCustomer(now, c);
      case RestoreCustomer(c) => outcome := RestoreOneCustomer(c);
      case CreateLicense(c, perpetual, max, until, drawn) => outcome := AddLicense(now, c, perpetual, max, until, drawn);
      case RenewLicense(l, until) => outcome := ExtendLicense(now, l, until);
      case ControlLicense(l, action) => outcome := SetLicense(l, action);
    }

    method ServeAdministrator(now: Time, request: Request) returns (outcome: Outcome)
      requires UniqueSerials(devices) && !FromDevice(request) && !AboutOwner(request)
      modifies this
      ensures Result(Tables(), outcome) == Step(cfg, old(Tables()), now, request)
    {
      hide CreatingDevice, UpdatingDevice, ArchivingDevice, RestoringDevice, Approving, Marking, Reassigning;
      match request
      case CreateDevice(serial, c, drawn) => outcome := AddDevice(serial, c, drawn);
      case UpdateDevice(d, c) => outcome := ChangeDevice(d, c);
      case ArchiveDevice(d) => outcome := ArchiveOneDevice(now, d);
      case RestoreDevice(d) => outcome := RestoreOneDevice(d);
      case Approve(d, i, pub, l, ttl, drawn) => outcome := ApproveDevice(now, d, i, pub, l, ttl, drawn);
      case Suspend(d) => outcome := MarkDevice(d, Suspended);
      case Revoke(d) => outcome := MarkDevice(d, Revoked);
      case Reassign(d) => outcome := ReassignDevice(now, d);
    }

    /** Any request, at a clock that has not gone back since the last one: the tables make the step of the
        specification and keep the invariant, so every run of the server is a run of the specification. */
    method Handle(ghost last: Time, now: Time, request: Request) returns (outcome: Outcome)
      requires Inv(Tables(), last) && last <= now
      modifies this
      ensures Result(Tables(), outcome) == Step(cfg, old(Tables()), now, request)
      ensures Inv(Tables(), now) && outcome != Crashed
      ensures outcome == Conflict ==> Collides(old(Tables()), request)
    {
      StepSound(cfg, Tables(), last, now, request);
      Serials(Tables(), last);
      hide Inv, Collides, Step, UniqueSerials;
      if FromDevice(request) {
        outcome := ServeDevice(now, request);
      } else if AboutOwner(request) {
        outcome := ServeOwner(now, request);
      } else {
        outcome := ServeAdministrator(now, request);
      }
    }
  }

  lemma Serials(db: Db, now: Time)
    requires Inv(db, now)
    ensures UniqueSerials(db.devices)
  {
  }
}
