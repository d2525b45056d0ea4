/** Properties of whole runs of the registration server: any sequence of requests, any answers the random
    source gives, any non-decreasing clock. */
module RegistrationRuns {
  import opened Prelude
  import opened RegistrationData
  import opened RegistrationSpec
  import opened RegistrationFrames
  import opened RegistrationInvariant

  datatype Event = Event(now: Time, request: Request)

  /** The clock starts at `start` and never runs backwards. */
  ghost predicate Ordered(start: Time, trace: seq<Event>) {
    && (forall i | 0 <= i < |trace| :: start <= trace[i].now)
    && (forall i, j | 0 <= i < j < |trace| :: trace[i].now <= trace[j].now)
  }

  /** The database after the first `n` events. */
  ghost function StateAt(cfg: Settings, db: Db, trace: seq<Event>, n: nat): Db
    requires n <= |trace|
    decreases n, 0
  {
    if n == 0 then db else ResultAt(cfg, db, trace, n - 1).db
  }

  ghost function ResultAt(cfg: Settings, db: Db, trace: seq<Event>, n: nat): Result
    requires n < |trace|
    decreases n, 1
  {
    Step(cfg, StateAt(cfg, db, trace, n), trace[n].now, trace[n].request)
  }

  ghost function TimeAt(start: Time, trace: seq<Event>, n: nat): Time
    requires n <= |trace|
  {
    if n == 0 then start else trace[n - 1].now
  }

  lemma {:induction false} ReachableInv(cfg: Settings, db: Db, start: Time, trace: seq<Event>, n: nat)
    requires Inv(db, start) && Ordered(start, trace) && n <= |trace|
    ensures Inv(StateAt(cfg, db, trace, n), TimeAt(start, trace, n))
  {
    if n > 0 {
      ReachableInv(cfg, db, start, trace, n - 1);
      StepSound(cfg, StateAt(cfg, db, trace, n - 1), TimeAt(start, trace, n - 1), trace[n - 1].now, trace[n - 1].request);
    }
  }

  /** From the empty database no run ever meets an unhandled exception, and the database refuses a
      transaction only when a drawn identifier was taken: the partial unique indexes never fire. */
  lemma RunsNeverFail(cfg: Settings, start: Time, trace: seq<Event>, n: nat)
    requires Ordered(start, trace) && n < |trace|
    ensures var r := ResultAt(cfg, EMPTY, trace, n);
            && r.outcome != Crashed
            && (r.outcome == Conflict ==> Collides(StateAt(cfg, EMPTY, trace, n), trace[n].request))
  {
    InitInv(start);
    ReachableInv(cfg, EMPTY, start, trace, n);
    StepSound(cfg, StateAt(cfg, EMPTY, trace, n), TimeAt(start, trace, n), trace[n].now, trace[n].request);
  }

  /** The licensing state of every reachable database. */
  lemma ReachableLicensing(cfg: Settings, start: Time, trace: seq<Event>, n: nat)
    requires Ordered(start, trace) && n <= |trace|
    ensures var db := StateAt(cfg, EMPTY, trace, n);
            && (forall l | l in db.licenses :: |set d | d in db.bindings && db.bindings[d] == l| <= db.licenses[l].maxDevices)
            && (forall d | d in db.devices :: d in db.bindings <==> exists i ::
                  i in db.installations && db.installations[i].device == d && db.installations[i].current)
            && (forall i, j | i in db.installations && j in db.installations && i != j && db.installations[i].current
                  && db.installations[j].current :: db.installations[i].device != db.installations[j].device)
            && (forall d | d in db.bindings ::
                  d in db.devices && db.bindings[d] in db.licenses
                  && db.devices[d].customer == Some(db.licenses[db.bindings[d]].customer))
            && (forall d | d in db.devices && db.devices[d].status == Active :: d in db.bindings)
            && (forall d | d in db.devices && db.devices[d].archivedAt.Some? :: db.devices[d].status == Revoked)
            && (forall l | l in db.licenses && db.licenses[l].customer in db.customers
                  && db.customers[db.licenses[l].customer].archivedAt.Some? ::
                  !Usable(db.licenses[l], TimeAt(start, trace, n)))
  {
    InitInv(start);
    ReachableInv(cfg, EMPTY, start, trace, n);
    var db := StateAt(cfg, EMPTY, trace, n);
    forall d | d in db.devices
      ensures d in db.bindings <==> HasCurrent(db.installations, d)
    {
      assert d in db.bindings <==> d in db.bindings.Keys;
    }
    forall l | l in db.licenses
      ensures |set d | d in db.bindings && db.bindings[d] == l| <= db.licenses[l].maxDevices
    {
      assert (set d | d in db.bindings && db.bindings[d] == l) == BoundTo(db.bindings, l);
    }
    forall d | d in db.devices
      ensures StatusFits(db.devices[d], d in db.bindings)
    {
    }
  }

  // ---------------------------------------------------------------- coming back from revocation

  ghost predicate Down(db: Db, d: Id) {
    d in db.devices && db.devices[d].status in {Revoked, Suspended}
  }

  /** Nothing left over from before can activate the device. */
  ghost predicate Cleared(db: Db, d: Id, now: Time) {
    && d in db.devices && db.devices[d].status in {Revoked, Suspended, Pending}
    && forall t | t in db.tokens && db.tokens[t].device == d && db.tokens[t].usedAt.None? :: db.tokens[t].expiresAt <= now
  }

  ghost predicate NotActive(db: Db, d: Id) {
    d in db.devices && db.devices[d].status != Active
  }

  ghost predicate ReassignedAt(cfg: Settings, db: Db, trace: seq<Event>, i: nat, d: Id) {
    i < |trace| && trace[i].request == Reassign(d) && ResultAt(cfg, db, trace, i).outcome.Ok?
  }

  ghost predicate ApprovedAt(cfg: Settings, db: Db, trace: seq<Event>, i: nat, d: Id) {
    && i < |trace| && trace[i].request.Approve? && trace[i].request.device == d
    && ResultAt(cfg, db, trace, i).outcome.Ok?
  }

  /** An activation, proved with a challenge of device `d` and spending an unused token. */
  ghost predicate ActivatedAt(cfg: Settings, db: Db, trace: seq<Event>, i: nat, d: Id) {
    && i < |trace| && Activates(StateAt(cfg, db, trace, i), trace[i].request, d)
    && ResultAt(cfg, db, trace, i).outcome.Ok?
  }

  ghost predicate Activates(db: Db, request: Request, d: Id) {
    && request.Activate? && request.proof.challenge in db.challenges
    && db.challenges[request.proof.challenge].device == d
    && request.token in db.tokens && db.tokens[request.token].usedAt.None?
  }

  /** How one request can change the status of one device. */
  ghost predicate StatusMoves(db: Db, r: Result, now: Time, request: Request, d: Id)
    requires d in db.devices
  {
    && d in r.db.devices
    && var was, became := db.devices[d].status, r.db.devices[d].status;
       was != became ==>
         && r.outcome.Ok?
         && (|| (request == Suspend(d) && became == Suspended)
             || (request == Revoke(d) && became == Revoked)
             || (request == ArchiveDevice(d) && became == Revoked)
             || (request == Reassign(d) && became == Pending)
             || (request.Approve? && request.device == d && was !in {Revoked, Suspended} && became == ActivationRequired)
             || (Activates(db, request, d) && was !in {Revoked, Suspended} && became == Active
                 && db.tokens[request.token].device == d && db.tokens[request.token].expiresAt > now))
  }

  /** Only an approval of the device gives it a token it could still spend. */
  ghost predicate TokensMove(db: Db, r: Result, now: Time, request: Request, d: Id) {
    (request.Approve? && request.device == d && r.outcome.Ok?)
    || forall t | t in r.db.tokens && r.db.tokens[t].device == d && r.db.tokens[t].usedAt.None? ::
         && t in db.tokens && db.tokens[t].device == d && db.tokens[t].usedAt.None?
         && (r.db.tokens[t].expiresAt == db.tokens[t].expiresAt || r.db.tokens[t].expiresAt <= now)
  }

  lemma KeptMoves(db: Db, r: Result, now: Time, request: Request, d: Id)
    requires d in db.devices && d in r.db.devices && r.db.devices[d].status == db.devices[d].status
    requires r.db.tokens == db.tokens
    ensures StatusMoves(db, r, now, request, d) && TokensMove(db, r, now, request, d)
  {
  }

  lemma ActivateMoves(cfg: Settings, db: Db, now: Time, proof: Proof, t: Secret, drawn: Secret, d: Id)
    requires d in db.devices
    ensures var r := ActivatingDevice(db, cfg, now, proof, t, drawn);
            StatusMoves(db, r, now, Activate(proof, t, drawn), d) && TokensMove(db, r, now, Activate(proof, t, drawn), d)
  {
    hide ActivatingDevice;
    ActivateStep(cfg, db, now, proof, t, drawn);
  }

  lemma EnrollMoves(db: Db, now: Time, serial: Serial, i: Id, pub: PublicKey, drawn: Id, d: Id)
    requires d in db.devices
    ensures var r := Enrolling(db, now, serial, i, pub, drawn);
            var request := Enroll(serial, i, pub, drawn);
            StatusMoves(db, r, now, request, d) && TokensMove(db, r, now, request, d)
  {
    EnrollKeeps(db, now, serial, i, pub, drawn, d);
    hide Enrolling;
    KeptMoves(db, Enrolling(db, now, serial, i, pub, drawn), now, Enroll(serial, i, pub, drawn), d);
  }

  /** Enrollment leaves every known device and every token as it was. */
  lemma EnrollKeeps(db: Db, now: Time, serial: Serial, i: Id, pub: PublicKey, drawn: Id, d: Id)
    requires d in db.devices
    ensures var after := Enrolling(db, now, serial, i, pub, drawn).db;
            d in after.devices && after.devices[d] == db.devices[d] && after.tokens == db.tokens
  {
    hide Constraints, IdentityStatus, Identify, DeviceBySerial, WithIdentity;
    if Identify(db, serial, i, pub).Unknown? {
      var found := DeviceBySerial(db, serial);
      if found.Some? || drawn !in db.devices {
        IdentityAdds(db, if found.Some? then found.value else drawn, found.None?, serial, i, pub, d);
      }
    }
  }

  lemma IdentityAdds(db: Db, e: Id, isNew: bool, serial: Serial, i: Id, pub: PublicKey, d: Id)
    requires d in db.devices && (isNew ==> e != d)
    ensures var after := WithIdentity(db, e, isNew, serial, i, pub);
            d in after.devices && after.devices[d] == db.devices[d] && after.tokens == db.tokens
  {
  }

  lemma UpdateMoves(db: Db, now: Time, e: Id, c: Option<Id>, d: Id)
    requires d in db.devices
    ensures var r := UpdatingDevice(db, e, c);
            StatusMoves(db, r, now, UpdateDevice(e, c), d) && TokensMove(db, r, now, UpdateDevice(e, c), d)
  {
    UpdateKeeps(db, e, c, d);
    hide UpdatingDevice;
    KeptMoves(db, UpdatingDevice(db, e, c), now, UpdateDevice(e, c), d);
  }

  lemma UpdateKeeps(db: Db, e: Id, c: Option<Id>, d: Id)
    requires d in db.devices
    ensures var after := UpdatingDevice(db, e, c).db;
            d in after.devices && after.devices[d].status == db.devices[d].status && after.tokens == db.tokens
  {
    hide Constraints, Commit, ActiveCustomer, LicenseFor, NotEditable;
    var stop := NotEditable(db, e);
    if stop.None? && e in db.devices {
      var devices := db.devices[e := db.devices[e].(customer := c)];
      assert devices[d].status == db.devices[d].status;
      assert UpdatingDevice(db, e, c).db in {db, db.(devices := devices)};
    }
  }

  lemma RestoreMoves(db: Db, now: Time, e: Id, d: Id)
    requires d in db.devices
    ensures var r := RestoringDevice(db, e);
            StatusMoves(db, r, now, RestoreDevice(e), d) && TokensMove(db, r, now, RestoreDevice(e), d)
  {
    hide Constraints, Commit;
  }

  lemma MarkMoves(db: Db, now: Time, request: Request, d: Id)
    requires d in db.devices && (request.Suspend? || request.Revoke?)
    ensures var r := Marking(db, request.device, if request.Suspend? then Suspended else Revoked);
            StatusMoves(db, r, now, request, d) && TokensMove(db, r, now, request, d)
  {
    hide Constraints, Commit;
  }

  lemma CreateMoves(db: Db, now: Time, serial: Serial, c: Option<Id>, drawn: Id, d: Id)
    requires d in db.devices
    ensures var r := CreatingDevice(db, serial, c, drawn);
            var request := CreateDevice(serial, c, drawn);
            StatusMoves(db, r, now, request, d) && TokensMove(db, r, now, request, d)
  {
    hide Constraints, Commit, ActiveCustomer, DeviceBySerial;
  }

  lemma ArchiveMoves(db: Db, now: Time, e: Id, d: Id)
    requires d in db.devices
    ensures var r := ArchivingDevice(db, now, e);
            StatusMoves(db, r, now, ArchiveDevice(e), d) && TokensMove(db, r, now, ArchiveDevice(e), d)
  {
    hide Constraints, Commit, State, Stamp;
  }

  lemma ApproveMoves(db: Db, now: Time, e: Id, i: Id, pub: PublicKey, l: Id, ttl: nat, drawn: Secret, d: Id)
    requires d in db.devices
    ensures var r := Approving(db, now, e, i, pub, l, ttl, drawn);
            var request := Approve(e, i, pub, l, ttl, drawn);
            StatusMoves(db, r, now, request, d) && TokensMove(db, r, now, request, d)
  {
    hide Constraints, Commit, Usable, OtherCurrent, ActiveCustomer, NotEditable;
  }

  lemma ReassignMoves(db: Db, now: Time, e: Id, d: Id)
    requires d in db.devices
    ensures var r := Reassigning(db, now, e);
            StatusMoves(db, r, now, Reassign(e), d) && TokensMove(db, r, now, Reassign(e), d)
  {
    hide Constraints, Commit, Released, ReleasedKeys;
  }

  /** Requests about customers and licenses write neither devices nor tokens. */
  lemma OwnerMoves(cfg: Settings, db: Db, now: Time, request: Request, d: Id)
    requires d in db.devices && AboutOwner(request)
    ensures var r := Step(cfg, db, now, request);
            StatusMoves(db, r, now, request, d) && TokensMove(db, r, now, request, d)
  {
    hide StatusMoves, TokensMove, CreatingCustomer, ArchivingCustomer, RestoringCustomer, CreatingLicense, RenewingLicense,
         ControllingLicense;
    match request {
      case CreateCustomer(c) => CustomerTables(db, now, c);
      case ArchiveCustomer(c) => CustomerTables(db, now, c);
      case RestoreCustomer(c) => CustomerTables(db, now, c);
      case CreateLicense(c, perpetual, max, until, drawn) => NewLicenseTables(db, now, c, perpetual, max, until, drawn);
      case RenewLicense(l, until) => LicenseTables(db, now, l, until, ResumeLicense);
      case ControlLicense(l, action) => LicenseTables(db, now, l, 0, action);
    }
    KeptMoves(db, Step(cfg, db, now, request), now, request, d);
  }

  lemma Moves(cfg: Settings, db: Db, now: Time, request: Request, d: Id)
    requires d in db.devices
    ensures var r := Step(cfg, db, now, request);
            StatusMoves(db, r, now, request, d) && TokensMove(db, r, now, request, d)
  {
    hide StatusMoves, TokensMove, Verifying, Beating, Challenging, ActivatingDevice, Enrolling, CreatingCustomer,
      ArchivingCustomer, RestoringCustomer, CreatingLicense, RenewingLicense, ControllingLicense, CreatingDevice,
      UpdatingDevice, ArchivingDevice, RestoringDevice, Approving, Marking, Reassigning;
    var r := Step(cfg, db, now, request);
    match request
    case Verify(proof, drawn) =>
      VerifyFrame(cfg, db, now, proof, drawn);
      KeptMoves(db, r, now, request, d);
    case Heartbeat(s, drawn) =>
      HeartbeatFrame(cfg, db, now, s, drawn);
      KeptMoves(db, r, now, request, d);
    case AskChallenge(serial, i, pub, purpose, drawn, nonce) =>
      AskChallengeTables(db, cfg, now, serial, i, pub, purpose, drawn, nonce);
      KeptMoves(db, r, now, request, d);
    case Activate(proof, t, drawn) => ActivateMoves(cfg, db, now, proof, t, drawn, d);
    case Enroll(serial, i, pub, drawn) => EnrollMoves(db, now, serial, i, pub, drawn, d);
    case CreateCustomer(_) => OwnerMoves(cfg, db, now, request, d);
    case ArchiveCustomer(_) => OwnerMoves(cfg, db, now, request, d);
    case RestoreCustomer(_) => OwnerMoves(cfg, db, now, request, d);
    case CreateLicense(_, _, _, _, _) => OwnerMoves(cfg, db, now, request, d);
    case RenewLicense(_, _) => OwnerMoves(cfg, db, now, request, d);
    case ControlLicense(_, _) => OwnerMoves(cfg, db, now, request, d);
    case ArchiveDevice(e) => ArchiveMoves(db, now, e, d);
    case Approve(e, i, pub, l, ttl, drawn) => ApproveMoves(db, now, e, i, pub, l, ttl, drawn, d);
    case Reassign(e) => ReassignMoves(db, now, e, d);
    case CreateDevice(serial, c, drawn) => CreateMoves(db, now, serial, c, drawn, d);
    case UpdateDevice(e, c) => UpdateMoves(db, now, e, c, d);
    case RestoreDevice(e) => RestoreMoves(db, now, e, d);
    case Suspend(e) => MarkMoves(db, now, request, d);
    case Revoke(e) => MarkMoves(db, now, request, d);
  }

  /** A device that is down stays down up to the first reassignment, which voids every token it had. */
  lemma {:induction false} StaysDown(cfg: Settings, db: Db, start: Time, trace: seq<Event>, a: nat, n: nat, d: Id)
    returns (i: nat)
    requires Ordered(start, trace) && a <= n <= |trace|
    requires Down(StateAt(cfg, db, trace, a), d)
    ensures a <= i <= n
    ensures i == n ==> Down(StateAt(cfg, db, trace, n), d)
    ensures i < n ==> ReassignedAt(cfg, db, trace, i, d) && Cleared(StateAt(cfg, db, trace, i + 1), d, trace[i].now)
    decreases n - a
  {
    hide Step;
    i := n;
    if a < n {
      Moves(cfg, StateAt(cfg, db, trace, a), trace[a].now, trace[a].request, d);
      if ReassignedAt(cfg, db, trace, a, d) {
        i := a;
        ReassignClears(cfg, StateAt(cfg, db, trace, a), trace[a].now, d);
      } else {
        i := StaysDown(cfg, db, start, trace, a + 1, n, d);
      }
    }
  }

  lemma ReassignClears(cfg: Settings, db: Db, now: Time, d: Id)
    requires Step(cfg, db, now, Reassign(d)).outcome.Ok?
    ensures Cleared(Step(cfg, db, now, Reassign(d)).db, d, now)
  {
    hide Constraints, Commit;
  }

  /** A cleared device stays out up to the first approval. */
  lemma {:induction false} StaysCleared(cfg: Settings, db: Db, start: Time, trace: seq<Event>, a: nat, n: nat, d: Id)
    returns (j: nat)
    requires Ordered(start, trace) && a <= n <= |trace|
    requires Cleared(StateAt(cfg, db, trace, a), d, TimeAt(start, trace, a))
    ensures a <= j <= n
    ensures j == n ==> NotActive(StateAt(cfg, db, trace, n), d)
    ensures j < n ==> ApprovedAt(cfg, db, trace, j, d) && NotActive(StateAt(cfg, db, trace, j + 1), d)
    decreases n - a
  {
    hide Step;
    j := n;
    if a < n {
      Moves(cfg, StateAt(cfg, db, trace, a), trace[a].now, trace[a].request, d);
      if ApprovedAt(cfg, db, trace, a, d) {
        j := a;
      } else {
        j := StaysCleared(cfg, db, start, trace, a + 1, n, d);
      }
    }
  }

  /** A device that is not ACTIVE becomes so only by an activation. */
  lemma {:induction false} StaysInactive(cfg: Settings, db: Db, start: Time, trace: seq<Event>, a: nat, n: nat, d: Id)
    returns (k: nat)
    requires Ordered(start, trace) && a <= n <= |trace|
    requires NotActive(StateAt(cfg, db, trace, a), d)
    ensures a <= k <= n
    ensures k == n ==> NotActive(StateAt(cfg, db, trace, n), d)
    ensures k < n ==> ActivatedAt(cfg, db, trace, k, d)
    decreases n - a
  {
    hide Step;
    k := n;
    if a < n {
      Moves(cfg, StateAt(cfg, db, trace, a), trace[a].now, trace[a].request, d);
      if ActivatedAt(cfg, db, trace, a, d) {
        k := a;
      } else {
        k := StaysInactive(cfg, db, start, trace, a + 1, n, d);
      }
    }
  }

  /** What archival and an effective ACTIVE say about the stored status. */
  lemma StoredStatus(db: Db, before: Time, now: Time, d: Id)
    requires Inv(db, before) && d in db.devices
    ensures db.devices[d].archivedAt.Some? ==> db.devices[d].status == Revoked
    ensures State(db, now, d) == Active ==> db.devices[d].status == Active && d in db.bindings
  {
    hide Constraints, Commit;
    assert StatusFits(db.devices[d], d in db.bindings.Keys);
  }

  /** A device that was revoked, suspended or archived at step `a` and is effectively ACTIVE at step `n` has in
      between been reassigned, after that approved, and after that activated. */
  lemma ReactivationNeedsAllThree(cfg: Settings, db: Db, start: Time, trace: seq<Event>, a: nat, n: nat, d: Id, now: Time)
    requires Inv(db, start) && Ordered(start, trace) && a <= n <= |trace|
    requires d in StateAt(cfg, db, trace, a).devices
    requires var row := StateAt(cfg, db, trace, a).devices[d];
             row.status in {Revoked, Suspended} || row.archivedAt.Some?
    requires d in StateAt(cfg, db, trace, n).devices && State(StateAt(cfg, db, trace, n), now, d) == Active
    ensures exists i: nat, j: nat, k: nat ::
              && a <= i < j < k < n && ReassignedAt(cfg, db, trace, i, d) && ApprovedAt(cfg, db, trace, j, d)
              && ActivatedAt(cfg, db, trace, k, d)
  {
    hide Inv, State, StateAt, ResultAt, Step;
    ReachableInv(cfg, db, start, trace, a);
    ReachableInv(cfg, db, start, trace, n);
    StoredStatus(StateAt(cfg, db, trace, a), TimeAt(start, trace, a), now, d);
    StoredStatus(StateAt(cfg, db, trace, n), TimeAt(start, trace, n), now, d);
    var i := StaysDown(cfg, db, start, trace, a, n, d);
    var j := StaysCleared(cfg, db, start, trace, i + 1, n, d);
    var k := StaysInactive(cfg, db, start, trace, j + 1, n, d);
  }
}
