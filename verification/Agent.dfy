/** `synchronize` as a method that rewrites the cache file step by step, and the properties of its runs. */
module Agent {
  import opened Prelude
  import opened RegistrationData
  import opened AgentSpec

  class RegistrationAgent {
    const me: Identity
    var cache: Cache

    constructor (me: Identity)
      ensures this.me == me && cache == Absent
    {
      this.me := me;
      cache := Absent;
    }

    method Deny(a: Attempt, reason: string) returns (r: Report)
      modifies this`cache
      ensures (cache, r) == Denial(a, reason)
    {
      cache := DeniedAt(Seconds(a.start));
      r := Report(false, Online, reason, None);
    }

    method FallBack(issued: set<Payload>, a: Attempt) returns (r: Report)
      modifies this`cache
      ensures (cache, r) == Fallback(issued, me, old(cache), a)
    {
      r := Report(false, Offline, "SERVER_UNREACHABLE", None);
      if !a.hasToken && cache.Holding? {
        if Accepts(issued, me, cache.document, cache.device, cache.clock, Seconds(a.checking)) {
          r := r.(authorized := true, mode := OfflineGrace, document := Some(cache.document));
          cache := cache.(clock := Seconds(a.start));
        } else {
          r := r.(error := "OFFLINE_AUTHORIZATION_INVALID_OR_EXPIRED");
        }
      }
    }

    method Synchronize(issued: set<Payload>, a: Attempt) returns (r: Report)
      modifies this`cache
      ensures (cache, r) == Sync(issued, me, old(cache), a)
    {
      if a.enroll.Raises? {
        return NOTHING;
      }
      if a.enroll.Unreachable? {
        r := FallBack(issued, a);
        return;
      }
      if a.enroll.Refuses? {
        r := Deny(a, a.enroll.reason);
        return;
      }
      var device := a.enroll.value.device;
      if a.enroll.value.installation != me.installation {
        r := Deny(a, "INVALID_ENROLLMENT_RESPONSE");
        return;
      }
      if a.challenge.Raises? {
        return NOTHING;
      }
      if a.challenge.Unreachable? {
        r := FallBack(issued, a);
        return;
      }
      if a.challenge.Refuses? {
        r := Deny(a, a.challenge.reason);
        return;
      }
      var purpose := if a.hasToken then Activating else Authenticating;
      if !Signable(me, a.challenge.value, purpose, Seconds(a.proving)) {
        r := Deny(a, "INVALID_SERVER_CHALLENGE");
        return;
      }
      if a.proof.Raises? {
        return NOTHING;
      }
      if a.proof.Unreachable? {
        r := FallBack(issued, a);
        return;
      }
      if a.proof.Refuses? {
        r := Deny(a, a.proof.reason);
        return;
      }
      var answer := a.proof.value;
      if answer.device != device {
        r := Deny(a, "INVALID_DEVICE_BINDING");
        return;
      }
      r := Report(false, Online, "", None);
      if answer.status != Active {
        cache := DeniedAt(Seconds(a.start));
        return;
      }
      if answer.document.None? {
        r := Deny(a, "INVALID_SERVER_RESPONSE");
        return;
      }
      if answer.document.value !in issued {
        r := Deny(a, "INVALID_SERVER_RESPONSE");
        return;
      }
      if !Accepts(issued, me, answer.document.value, device, LastClock(cache), Seconds(a.checking)) {
        r := Deny(a, "INVALID_AUTHORIZATION_DOCUMENT");
        return;
      }
      cache := Holding(answer.document.value, device, Seconds(a.start));
      r := r.(authorized := true, document := Some(answer.document.value));
    }
  }

  // ---------------------------------------------------------------- runs of one agent

  /** One sync, together with the documents the server has signed by then. */
  datatype Turn = Turn(issued: set<Payload>, attempt: Attempt)

  ghost function CacheAt(me: Identity, cache: Cache, run: seq<Turn>, n: nat): Cache
    requires n <= |run|
  {
    if n == 0 then cache
    else Sync(run[n - 1].issued, me, CacheAt(me, cache, run, n - 1), run[n - 1].attempt).0
  }

  ghost function ReportAt(me: Identity, cache: Cache, run: seq<Turn>, n: nat): Report
    requires n < |run|
  {
    Sync(run[n].issued, me, CacheAt(me, cache, run, n), run[n].attempt).1
  }

  ghost predicate GrantedAt(me: Identity, cache: Cache, run: seq<Turn>, n: nat) {
    n < |run| && ReportAt(me, cache, run, n).authorized && ReportAt(me, cache, run, n).mode == Online
  }

  ghost predicate GraceAt(me: Identity, cache: Cache, run: seq<Turn>, n: nat) {
    n < |run| && ReportAt(me, cache, run, n).authorized && ReportAt(me, cache, run, n).mode == OfflineGrace
  }

  /** Only a granted sync puts a document into the cache. */
  lemma {:induction false} DocumentKept(me: Identity, cache: Cache, run: seq<Turn>, a: nat, n: nat)
    requires a <= n <= |run|
    requires forall k | a <= k < n :: !GrantedAt(me, cache, run, k)
    ensures CacheAt(me, cache, run, n).Holding? ==>
              && CacheAt(me, cache, run, a).Holding?
              && CacheAt(me, cache, run, n).document == CacheAt(me, cache, run, a).document
              && CacheAt(me, cache, run, n).device == CacheAt(me, cache, run, a).device
  {
    if a < n {
      DocumentKept(me, cache, run, a, n - 1);
      assert !GrantedAt(me, cache, run, n - 1);
    }
  }

  /** After the server was reached and did not say ACTIVE, no sync is authorized offline until one is
      authorized online again. */
  lemma DenialHolds(me: Identity, cache: Cache, run: seq<Turn>, i: nat, j: nat)
    requires i < j && GraceAt(me, cache, run, j)
    requires ReportAt(me, cache, run, i).mode == Online && !ReportAt(me, cache, run, i).authorized
    ensures exists k: nat :: i < k < j && GrantedAt(me, cache, run, k)
  {
    if forall k: nat | i < k < j :: !GrantedAt(me, cache, run, k) {
      DocumentKept(me, cache, run, i + 1, j);
      assert false;
    }
  }

  // ---------------------------------------------------------------- the clock

  function Tick(turn: Turn): int {
    Seconds(turn.attempt.checking)
  }

  /** A sync without an answer that is authorized by the cached document. */
  ghost predicate Graced(issued: set<Payload>, me: Identity, cache: Cache, a: Attempt) {
    Sync(issued, me, cache, a).1.authorized && Sync(issued, me, cache, a).1.mode == OfflineGrace
  }

  /** The clock was not behind when the sync started, or the document was checked before it can be accepted again. */
  ghost predicate Firm(a: Attempt, p: Payload) {
    Seconds(a.start) >= Seconds(a.checking) || p.issuedAt - 30 >= Seconds(a.checking)
  }

  /** The earliest reading at which the cached document can be accepted. */
  function Floor(cache: Cache): int
    requires cache.Holding?
  {
    if cache.clock >= cache.document.issuedAt - 30 then cache.clock else cache.document.issuedAt - 30
  }

  /** What an authorized sync leaves behind. */
  lemma AuthorizedSync(issued: set<Payload>, me: Identity, cache: Cache, a: Attempt)
    requires Sync(issued, me, cache, a).1.authorized
    ensures var (after, report) := Sync(issued, me, cache, a);
            && after.Holding? && report.document == Some(after.document)
            && after.document.issuedAt - 30 <= Seconds(a.checking) < after.document.expiresAt
            && after.document.expiresAt - after.document.issuedAt <= 604800
            && (Firm(a, after.document) <==> Seconds(a.checking) <= Floor(after))
    ensures Graced(issued, me, cache, a)
        ==> && cache.Holding? && cache.document == Sync(issued, me, cache, a).0.document
            && Floor(cache) <= Seconds(a.checking)
  {
  }

  /** The document can be used again as soon as the clock shows the floor. */
  lemma FloorReached(issued: set<Payload>, me: Identity, cache: Cache, a: Attempt) returns (b: Attempt)
    requires Sync(issued, me, cache, a).1.authorized
    requires Floor(Sync(issued, me, cache, a).0) < Seconds(a.checking)
    ensures Graced(issued, me, Sync(issued, me, cache, a).0, b)
    ensures Seconds(b.checking) == Floor(Sync(issued, me, cache, a).0)
  {
    var tick := Floor(Sync(issued, me, cache, a).0);
    b := OfflineAt(tick, tick);
    Exact(tick);
  }

  /** An authorized sync makes sure that the document is never accepted offline at an earlier reading exactly when its
      two readings are firm. */
  lemma NeverEarlier(issued: set<Payload>, me: Identity, cache: Cache, a: Attempt)
    requires Sync(issued, me, cache, a).1.authorized
    ensures Sync(issued, me, cache, a).0.Holding?
    ensures Firm(a, Sync(issued, me, cache, a).0.document)
       <==> forall later: set<Payload>, b: Attempt :: Graced(later, me, Sync(issued, me, cache, a).0, b)
              ==> Seconds(b.checking) >= Seconds(a.checking)
  {
    var after := Sync(issued, me, cache, a).0;
    AuthorizedSync(issued, me, cache, a);
    forall later: set<Payload>, b: Attempt | Graced(later, me, after, b)
      ensures Seconds(b.checking) >= Floor(after)
    {
      AuthorizedSync(later, me, after, b);
    }
    if !Firm(a, after.document) {
      var b := FloorReached(issued, me, cache, a);
      assert Graced(issued, me, after, b);
    }
  }

  /** If the sync at `k` is authorized, its readings are firm. */
  ghost predicate FirmAt(me: Identity, cache: Cache, run: seq<Turn>, k: nat)
    requires k < |run|
  {
    ReportAt(me, cache, run, k).authorized && ReportAt(me, cache, run, k).document.Some?
    ==> Firm(run[k].attempt, ReportAt(me, cache, run, k).document.value)
  }

  lemma FloorStep(issued: set<Payload>, me: Identity, cache: Cache, a: Attempt)
    requires var (after, report) := Sync(issued, me, cache, a);
             && after.Holding? && !(report.authorized && report.mode == Online)
             && (report.authorized ==> Firm(a, after.document))
    ensures cache.Holding? && Floor(cache) <= Floor(Sync(issued, me, cache, a).0)
  {
  }

  lemma {:induction false} FloorKept(me: Identity, cache: Cache, run: seq<Turn>, a: nat, n: nat)
    requires a <= n <= |run|
    requires forall k | a <= k < n :: FirmAt(me, cache, run, k) && !GrantedAt(me, cache, run, k)
    requires CacheAt(me, cache, run, n).Holding?
    ensures CacheAt(me, cache, run, a).Holding?
    ensures Floor(CacheAt(me, cache, run, a)) <= Floor(CacheAt(me, cache, run, n))
  {
    hide Sync, Firm;
    if a < n {
      var before, turn := CacheAt(me, cache, run, n - 1), run[n - 1];
      assert FirmAt(me, cache, run, n - 1) && !GrantedAt(me, cache, run, n - 1);
      if Sync(turn.issued, me, before, turn.attempt).1.authorized {
        AuthorizedSync(turn.issued, me, before, turn.attempt);
      }
      FloorStep(turn.issued, me, before, turn.attempt);
      FloorKept(me, cache, run, a, n - 1);
    }
  }

  /** However the system clock is set and however long a sync takes, one document authorizes only from 30 seconds before
      its issue to its expiry: all its uses lie within less than 604830 seconds. */
  lemma GraceSpan(me: Identity, cache: Cache, run: seq<Turn>, i: nat, j: nat)
    requires i < j < |run| && (GrantedAt(me, cache, run, i) || GraceAt(me, cache, run, i)) && GraceAt(me, cache, run, j)
    requires forall k | i < k <= j :: !GrantedAt(me, cache, run, k)
    ensures ReportAt(me, cache, run, j).document == ReportAt(me, cache, run, i).document
    ensures ReportAt(me, cache, run, i).document.Some?
    ensures var p := ReportAt(me, cache, run, i).document.value;
            p.issuedAt - 30 <= Tick(run[i]) < p.expiresAt && p.issuedAt - 30 <= Tick(run[j]) < p.expiresAt
    ensures -604830 < Tick(run[j]) - Tick(run[i]) < 604830
  {
    hide Sync, Firm;
    AuthorizedSync(run[i].issued, me, CacheAt(me, cache, run, i), run[i].attempt);
    AuthorizedSync(run[j].issued, me, CacheAt(me, cache, run, j), run[j].attempt);
    DocumentKept(me, cache, run, i + 1, j);
  }

  /** As long as every authorized sync is firm, it does so only by a clock that never goes back. */
  lemma GraceWindow(me: Identity, cache: Cache, run: seq<Turn>, i: nat, j: nat)
    requires i < j < |run| && (GrantedAt(me, cache, run, i) || GraceAt(me, cache, run, i)) && GraceAt(me, cache, run, j)
    requires forall k | i < k <= j :: !GrantedAt(me, cache, run, k)
    requires forall k | i <= k < j :: FirmAt(me, cache, run, k)
    ensures ReportAt(me, cache, run, j).document == ReportAt(me, cache, run, i).document
    ensures ReportAt(me, cache, run, i).document.Some?
    ensures var p := ReportAt(me, cache, run, i).document.value;
            p.issuedAt - 30 <= Tick(run[i]) <= Tick(run[j]) < p.expiresAt
    ensures Tick(run[j]) - Tick(run[i]) < 604830
  {
    hide Sync, Firm;
    GraceSpan(me, cache, run, i, j);
    assert FirmAt(me, cache, run, i);
    AuthorizedSync(run[i].issued, me, CacheAt(me, cache, run, i), run[i].attempt);
    AuthorizedSync(run[j].issued, me, CacheAt(me, cache, run, j), run[j].attempt);
    FloorKept(me, cache, run, i + 1, j);
  }

  function DocumentOf(me: Identity, d: Id): Payload {
    Payload(1, AUDIENCE, d, me.serial, me.installation, me.key, 1, Active, 50, 200)
  }

  function OfflineAt(start: nat, checking: nat): Attempt {
    Attempt(start * SECOND, start * SECOND, checking * SECOND, false, Unreachable, Unreachable, Unreachable)
  }

  /** With two readings per sync the guarantee is lost: a clock that is behind when the sync starts and right when
      it checks stores a clock that has gone back, and the next sync is authorized 40 seconds earlier. */
  lemma TwoReadingsGoBack(me: Identity, d: Id)
    ensures var p := DocumentOf(me, d);
            var run := [Turn({p}, OfflineAt(50, 100)), Turn({p}, OfflineAt(60, 60))];
            && GraceAt(me, Holding(p, d, 100), run, 0) && GraceAt(me, Holding(p, d, 100), run, 1)
            && Tick(run[1]) < Tick(run[0])
  {
    var p := DocumentOf(me, d);
    var run := [Turn({p}, OfflineAt(50, 100)), Turn({p}, OfflineAt(60, 60))];
    Exact(50);
    Exact(60);
    Exact(100);
    assert CacheAt(me, Holding(p, d, 100), run, 0) == Holding(p, d, 100);
    assert CacheAt(me, Holding(p, d, 100), run, 1) == Holding(p, d, 50);
  }

  lemma Exact(n: nat)
    ensures Seconds(n * SECOND) == n
  {
  }
}
