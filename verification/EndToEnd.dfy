/** Server, agent and clock as one system: what an authorized agent says about the server. */
module EndToEnd {
  import opened Prelude
  import opened RegistrationData
  import opened RegistrationSpec
  import opened RegistrationInvariant
  import opened RegistrationProofs
  import opened AgentSpec

  datatype Action = Serve(request: Request) | Synchronize(attempt: Attempt)

  /** One step of the system. A sync is placed at its clock check; it may have started earlier. */
  datatype Moment = Moment(now: Time, action: Action)

  datatype World = World(db: Db, cache: Cache)

  ghost predicate Ordered(start: Time, trace: seq<Moment>) {
    && (forall i | 0 <= i < |trace| :: start <= trace[i].now)
    && (forall i, j | 0 <= i < j < |trace| :: trace[i].now <= trace[j].now)
    && (forall i | 0 <= i < |trace| && trace[i].action.Synchronize? :: trace[i].action.attempt.checking == trace[i].now)
  }

  ghost function Next(cfg: Settings, me: Identity, w: World, m: Moment): World {
    match m.action
    case Serve(request) => w.(db := Step(cfg, w.db, m.now, request).db)
    case Synchronize(a) => w.(cache := Sync(w.db.issued, me, w.cache, a).0)
  }

  ghost function WorldAt(cfg: Settings, me: Identity, trace: seq<Moment>, n: nat): World
    requires n <= |trace|
  {
    if n == 0 then World(EMPTY, Absent) else Next(cfg, me, WorldAt(cfg, me, trace, n - 1), trace[n - 1])
  }

  ghost function TimeAt(start: Time, trace: seq<Moment>, n: nat): Time
    requires n <= |trace|
  {
    if n == 0 then start else trace[n - 1].now
  }

  ghost predicate AuthorizedAt(cfg: Settings, me: Identity, trace: seq<Moment>, n: nat) {
    && n < |trace| && trace[n].action.Synchronize?
    && Sync(WorldAt(cfg, me, trace, n).db.issued, me, WorldAt(cfg, me, trace, n).cache, trace[n].action.attempt).1.authorized
  }

  lemma {:induction false} ServerInv(cfg: Settings, me: Identity, start: Time, trace: seq<Moment>, n: nat)
    requires Ordered(start, trace) && n <= |trace|
    ensures Inv(WorldAt(cfg, me, trace, n).db, TimeAt(start, trace, n))
  {
    hide Inv, Step, Sync;
    if n == 0 {
      InitInv(start);
    } else {
      ServerInv(cfg, me, start, trace, n - 1);
      var db := WorldAt(cfg, me, trace, n - 1).db;
      Later(db, TimeAt(start, trace, n - 1), trace[n - 1].now);
      if trace[n - 1].action.Serve? {
        StepSound(cfg, db, TimeAt(start, trace, n - 1), trace[n - 1].now, trace[n - 1].action.request);
      }
    }
  }

  /** Every signed document was signed by some step, and was true of the server right then. */
  lemma {:induction false} SignedSomewhere(cfg: Settings, me: Identity, start: Time, trace: seq<Moment>, n: nat, p: Payload)
    returns (m: nat)
    requires Ordered(start, trace) && n <= |trace| && p in WorldAt(cfg, me, trace, n).db.issued
    ensures m < n && Truthful(cfg, WorldAt(cfg, me, trace, m + 1).db, trace[m].now, p)
  {
    hide Inv, Step, Sync, Truthful;
    var before := WorldAt(cfg, me, trace, n - 1);
    if p in before.db.issued {
      m := SignedSomewhere(cfg, me, start, trace, n - 1, p);
    } else {
      m := n - 1;
      ServerInv(cfg, me, start, trace, n - 1);
      Later(before.db, TimeAt(start, trace, n - 1), trace[n - 1].now);
      SignedTruthful(cfg, before.db, trace[n - 1].now, trace[n - 1].action.request, p);
    }
  }

  /** The document an authorized sync rests on. */
  lemma AuthorizedDocument(issued: set<Payload>, me: Identity, cache: Cache, a: Attempt) returns (p: Payload)
    requires Sync(issued, me, cache, a).1.authorized
    ensures Sync(issued, me, cache, a).1.document == Some(p)
    ensures p in issued && p.serial == me.serial && p.installation == me.installation && p.key == me.key
    ensures p.issuedAt - 30 <= Seconds(a.checking) < p.expiresAt
  {
    p := Sync(issued, me, cache, a).1.document.value;
  }

  /** A stamp before a truncated deadline is before the deadline. */
  lemma BeforeDeadline(cfg: Settings, p: Payload, now: Time, s: Time, d: Id, serial: Serial, i: Id, k: PublicKey, l: Id,
                       lic: License)
    requires DocumentIs(cfg, p, d, serial, i, k, l, lic, s) && Seconds(now) < p.expiresAt
    ensures now < s + cfg.graceSeconds * SECOND
    ensures lic.expiresAt.Some? ==> now < lic.expiresAt.value
  {
    SecondsOrder(now, s + cfg.graceSeconds * SECOND);
    if lic.expiresAt.Some? {
      SecondsOrder(now, lic.expiresAt.value);
    }
  }

  /** Right after step `m` the server held device `d`, of the agent's serial, ACTIVE with exactly the agent's
      installation and key current; `now` is within the grace period of that step and before the expiry that the
      device's license `l` had then. */
  ghost predicate VouchedAt(cfg: Settings, me: Identity, trace: seq<Moment>, m: nat, d: Id, l: Id, now: Time) {
    && m < |trace| && trace[m].now <= now < trace[m].now + cfg.graceSeconds * SECOND
    && var db := WorldAt(cfg, me, trace, m + 1).db;
       && HeldActive(db, trace[m].now, d, me.installation, me.key, l)
       && db.devices[d].serial == me.serial
       && (db.licenses[l].expiresAt.Some? ==> now < db.licenses[l].expiresAt.value)
  }

  /** If the agent is authorized at time t, then some earlier step, at a time s <= t < s + grace, vouches for it.
      No assumption is made about the network. */
  lemma AuthorizedMeansRecentlyHeld(cfg: Settings, me: Identity, start: Time, trace: seq<Moment>, n: nat)
    requires Ordered(start, trace) && AuthorizedAt(cfg, me, trace, n)
    ensures exists m: nat, d: Id, l: Id :: m < n && VouchedAt(cfg, me, trace, m, d, l, trace[n].now)
  {
    hide Sync, Step, HeldActive, WorldAt;
    var w := WorldAt(cfg, me, trace, n);
    var p := AuthorizedDocument(w.db.issued, me, w.cache, trace[n].action.attempt);
    var m := SignedSomewhere(cfg, me, start, trace, n, p);
    var held := WorldAt(cfg, me, trace, m + 1).db;
    HeldRows(held, trace[m].now, p.device, p.installation, p.key, p.license);
    BeforeDeadline(cfg, p, trace[n].now, trace[m].now, p.device, held.devices[p.device].serial, p.installation, p.key,
                   p.license, held.licenses[p.license]);
    assert VouchedAt(cfg, me, trace, m, p.device, p.license, trace[n].now);
  }

  lemma HeldRows(db: Db, now: Time, d: Id, i: Id, k: PublicKey, l: Id)
    requires HeldActive(db, now, d, i, k, l)
    ensures d in db.devices && l in db.licenses
  {
  }
}
