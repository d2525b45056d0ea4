/** A lease gives exactly one answer, over every run of requests, failures, retries and revocations. */
module EnrollmentRuns {
  import opened Prelude
  import opened PeerConfig
  import opened PeerEdits
  import opened PeerServerSpec
  import opened PeerAgreement
  import opened PeerRuns
  import opened AuthorizedKeys
  import opened EnrollmentSpec

  datatype Step =
    | Authorizing(id: LeaseId, device: string, hostname: string, file: string, endpoint: string, ttl: int, now: Time,
                  stamp: Stamp, fails: bool)
    | Receiving(id: LeaseId, request: Request, now: Time, serverKey: Option<Key>, fault: ReceiveFault)
    | Revoking(id: LeaseId, revokeFault: RevokeFault)
    | Managing(operation: Operation)

  /** Lease ids are random UUIDs and do not repeat. */
  ghost function Next(setup: Setup, e: Enrollment, step: Step): Enrollment {
    match step
    case Authorizing(id, device, hostname, file, endpoint, ttl, now, stamp, fails) =>
      if !ValidId(id) || id in e.leases then e
      else Authorize(e, id, device, hostname, file, endpoint, ttl, now, stamp, fails)
    case Receiving(id, r, now, serverKey, fault) => Receive(setup, e, id, r, now, serverKey, fault).0
    case Revoking(id, fault) => Revoke(e, id, fault)
    case Managing(op) => e.(stores := Perform(setup, e.stores, op).0)
  }

  ghost function EnrollmentAt(setup: Setup, e: Enrollment, run: seq<Step>, n: nat): Enrollment
    requires n <= |run|
  {
    if n == 0 then e else Next(setup, EnrollmentAt(setup, e, run, n - 1), run[n - 1])
  }

  /** What step `n` answers, if it is a request for lease `id`. */
  ghost function AnswerAt(setup: Setup, e: Enrollment, run: seq<Step>, n: nat, id: LeaseId): Answer
    requires n < |run|
  {
    match run[n]
    case Receiving(lease, r, now, serverKey, fault) =>
      if lease == id then Receive(setup, EnrollmentAt(setup, e, run, n), id, r, now, serverKey, fault).1 else Denied
    case _ => Denied
  }

  // ---------------------------------------------------------------- one lease

  /** What may happen to a lease from one moment to a later one. */
  predicate Advances(g: Grant, h: Grant) {
    && h.device == g.device && h.hostname == g.hostname && h.expires == g.expires
    && (g.request.Some? ==> h.request == g.request)
    && (g.registration.Some? ==> h.registration == g.registration)
    && (g.state == Revoked ==> h == g)
    && (g.state == Completed ==> h == g || h == g.(state := Revoked))
  }

  /** A lease holds a registration exactly from its completion on, and it is the one for its request. */
  predicate Sensible(g: Grant) {
    && (g.request.Some? ==> g.request.value.device == g.device && g.request.value.hostname == g.hostname)
    && (g.state == Completed ==> g.registration.Some?)
    && (g.state == Authorized ==> g.registration.None?)
    && (g.registration.Some? ==> g.request == Some(g.registration.value.request))
  }

  predicate AllSensible(leases: map<LeaseId, Grant>) {
    forall id | id in leases :: Sensible(leases[id])
  }

  lemma ObtainFor(setup: Setup, s: Stores, r: Request, serverKey: Option<Key>, fault: Fault)
    requires Obtain(setup, s, r, serverKey, fault).1.Registered?
    ensures Obtain(setup, s, r, serverKey, fault).1.registration.request == r
  {
    if !Known(s.registry, r) {
      var a := AddIsTransaction(setup, s, r, None, serverKey, fault);
    }
  }

  lemma ReceiveAdvances(setup: Setup, e: Enrollment, lease: LeaseId, r: Request, now: Time, serverKey: Option<Key>,
                        fault: ReceiveFault, id: LeaseId)
    requires id in e.leases && Sensible(e.leases[id])
    ensures var after := Receive(setup, e, lease, r, now, serverKey, fault).0;
            id in after.leases && Advances(e.leases[id], after.leases[id]) && Sensible(after.leases[id])
  {
    hide Obtain, ValidRequest, ValidId, Expired;
    if lease in e.leases {
      var inner := setup.(endpoint := e.leases[lease].endpoint);
      if Obtain(inner, e.stores, r, serverKey, fault.add).1.Registered? {
        ObtainFor(inner, e.stores, r, serverKey, fault.add);
      }
    }
  }

  lemma StepAdvances(setup: Setup, e: Enrollment, step: Step, id: LeaseId)
    requires id in e.leases && Sensible(e.leases[id])
    ensures var after := Next(setup, e, step);
            id in after.leases && Advances(e.leases[id], after.leases[id]) && Sensible(after.leases[id])
  {
    hide Receive, ValidLease, ValidId, PublicKey, Within, Installed;
    match step
    case Receiving(lease, r, now, serverKey, fault) => ReceiveAdvances(setup, e, lease, r, now, serverKey, fault, id);
    case Authorizing(_, _, _, _, _, _, _, _, _) =>
    case Revoking(_, _) =>
    case Managing(_) =>
  }

  /** From any moment of a run to any later one a lease only advances: its first request stays, its registration
      stays, and once revoked it never changes again. */
  lemma {:induction false} LeaseAdvances(setup: Setup, e: Enrollment, run: seq<Step>, m: nat, n: nat, id: LeaseId)
    requires m <= n <= |run| && id in EnrollmentAt(setup, e, run, m).leases
    requires Sensible(EnrollmentAt(setup, e, run, m).leases[id])
    ensures id in EnrollmentAt(setup, e, run, n).leases && Sensible(EnrollmentAt(setup, e, run, n).leases[id])
    ensures Advances(EnrollmentAt(setup, e, run, m).leases[id], EnrollmentAt(setup, e, run, n).leases[id])
    decreases n
  {
    hide Next, Sensible;
    if m < n {
      LeaseAdvances(setup, e, run, m, n - 1, id);
      StepAdvances(setup, EnrollmentAt(setup, e, run, n - 1), run[n - 1], id);
    }
  }

  lemma StepSensible(setup: Setup, e: Enrollment, step: Step)
    requires AllSensible(e.leases)
    ensures AllSensible(Next(setup, e, step).leases)
  {
    forall id | id in Next(setup, e, step).leases
      ensures Sensible(Next(setup, e, step).leases[id])
    {
      if id in e.leases {
        StepAdvances(setup, e, step, id);
      } else {
        hide Receive;
        NoNewLease(setup, e, step, id);
      }
    }
  }

  lemma NoNewLease(setup: Setup, e: Enrollment, step: Step, id: LeaseId)
    requires id !in e.leases && id in Next(setup, e, step).leases
    ensures step.Authorizing? && Sensible(Next(setup, e, step).leases[id])
  {
    hide Obtain, ValidRequest, ValidLease, ValidId, PublicKey, Within, Installed, Expired;
  }

  lemma {:induction false} ReachableSensible(setup: Setup, e: Enrollment, run: seq<Step>, n: nat)
    requires n <= |run| && AllSensible(e.leases)
    ensures AllSensible(EnrollmentAt(setup, e, run, n).leases)
  {
    hide Next;
    if n > 0 {
      ReachableSensible(setup, e, run, n - 1);
      StepSensible(setup, EnrollmentAt(setup, e, run, n - 1), run[n - 1]);
    }
  }

  // ---------------------------------------------------------------- answers

  /** An answer is what the lease holds afterwards, and the lease is completed. */
  lemma GrantedIsHeld(setup: Setup, e: Enrollment, id: LeaseId, r: Request, now: Time, serverKey: Option<Key>,
                      fault: ReceiveFault)
    requires Receive(setup, e, id, r, now, serverKey, fault).1.Granted?
    ensures var (after, answer) := Receive(setup, e, id, r, now, serverKey, fault);
            && id in e.leases && e.leases[id].state != Revoked && !Expired(e.leases[id], now)
            && id in after.leases && after.leases[id].state == Completed
            && after.leases[id].registration == Some(answer.registration)
            && after.leases[id].request == Some(r)
            && r.device == e.leases[id].device && r.hostname == e.leases[id].hostname
            && (e.leases[id].state == Completed ==> e.leases[id].registration == Some(answer.registration))
  {
    hide Obtain, ValidRequest, ValidId, Expired;
  }

  /** All successful answers for one lease are the same registration. */
  lemma OneAnswer(setup: Setup, e: Enrollment, run: seq<Step>, m: nat, n: nat, id: LeaseId)
    requires m < n < |run| && AllSensible(e.leases)
    requires AnswerAt(setup, e, run, m, id).Granted? && AnswerAt(setup, e, run, n, id).Granted?
    ensures AnswerAt(setup, e, run, m, id) == AnswerAt(setup, e, run, n, id)
    ensures run[m].request == run[n].request
  {
    hide AnswerAt, Sensible, Next;
    AnswerHeld(setup, e, run, m, id);
    AnswerHeld(setup, e, run, n, id);
    ReachableSensible(setup, e, run, m + 1);
    LeaseAdvances(setup, e, run, m + 1, n + 1, id);
  }

  lemma AnswerHeld(setup: Setup, e: Enrollment, run: seq<Step>, m: nat, id: LeaseId)
    requires m < |run| && AnswerAt(setup, e, run, m, id).Granted?
    ensures run[m].Receiving? && run[m].id == id
    ensures var leases := EnrollmentAt(setup, e, run, m + 1).leases;
            && id in leases && leases[id].request == Some(run[m].request)
            && leases[id].registration == Some(AnswerAt(setup, e, run, m, id).registration)
  {
    hide Receive, Expired;
    var a := EnrollmentAt(setup, e, run, m);
    GrantedIsHeld(setup, a, id, run[m].request, run[m].now, run[m].serverKey, run[m].fault);
    assert EnrollmentAt(setup, e, run, m + 1) == Next(setup, a, run[m]);
  }

  /** After a revocation every request for the lease is denied and leaves peers and lease alone. */
  lemma RevokedForGood(setup: Setup, e: Enrollment, run: seq<Step>, m: nat, n: nat, id: LeaseId)
    requires m <= n < |run| && AllSensible(e.leases)
    requires id in EnrollmentAt(setup, e, run, m).leases && EnrollmentAt(setup, e, run, m).leases[id].state == Revoked
    ensures AnswerAt(setup, e, run, n, id) == Denied
    ensures id in EnrollmentAt(setup, e, run, n + 1).leases
         && EnrollmentAt(setup, e, run, n + 1).leases[id] == EnrollmentAt(setup, e, run, m).leases[id]
    ensures run[n].Receiving? && run[n].id == id ==> EnrollmentAt(setup, e, run, n + 1) == EnrollmentAt(setup, e, run, n)
  {
    ReachableSensible(setup, e, run, m);
    LeaseAdvances(setup, e, run, m, n, id);
    LeaseAdvances(setup, e, run, m, n + 1, id);
    hide Obtain, ValidRequest, ValidId, Expired, Sensible;
  }

  // ---------------------------------------------------------------- peers

  /** A request that is in the registry already adds nothing, and unless the lease refuses it or its file cannot be
      written, the answer is the record that is there. */
  lemma RetryAddsNothing(setup: Setup, e: Enrollment, id: LeaseId, r: Request, now: Time, serverKey: Option<Key>,
                         fault: ReceiveFault)
    requires Known(e.stores.registry, r)
    ensures var (after, answer) := Receive(setup, e, id, r, now, serverKey, fault);
            && after.stores == e.stores
            && (Checked(e.leases, id, r, now).None? && !fault.bind && !fault.complete
                ==> answer == Granted(Records(e.stores.registry)[r.hostname]))
  {
    hide Checked, Add;
  }

  // ---------------------------------------------------------------- lost completions

  /** What a request gets from the registry or from `add`, whether or not the lease file can be written afterwards. */
  ghost function Obtained(setup: Setup, e: Enrollment, step: Step): Option<Registration> {
    match step
    case Receiving(id, r, now, serverKey, fault) =>
      if Checked(e.leases, id, r, now).Some? || fault.bind then None
      else
        var reply := Obtain(setup.(endpoint := e.leases[id].endpoint), e.stores, r, serverKey, fault.add).1;
        if reply.Registered? then Some(reply.registration) else None
    case _ => None
  }

  lemma ObtainedHolds(inner: Setup, s: Stores, r: Request, serverKey: Option<Key>, fault: Fault)
    requires Obtain(inner, s, r, serverKey, fault).1.Registered?
    ensures var (after, reply) := Obtain(inner, s, r, serverKey, fault);
            Holds(after.registry, r.hostname, reply.registration) && reply.registration.request == r
  {
    if !Known(s.registry, r) {
      var a := AddIsTransaction(inner, s, r, None, serverKey, fault);
      var done := Wanted(inner, s, r, a.value, serverKey.value);
      RegistryMixture(s, done.config, done.registry.value, r.key, Some(a.value), fault);
      hide Add, Cleared, Transaction, Added;
    } else {
      hide Add;
    }
  }

  /** The registry holds `p` for its request, and the lease is bound to that request and holds no other answer. */
  predicate Remembers(e: Enrollment, id: LeaseId, p: Registration) {
    && Holds(e.stores.registry, p.request.hostname, p) && ValidRequest(p.request) && ValidId(id) && id in e.leases
    && BoundTo(e.leases[id], p)
  }

  predicate BoundTo(g: Grant, p: Registration) {
    && g.request == Some(p.request) && p.request.device == g.device && p.request.hostname == g.hostname
    && (g.state == Completed ==> g.registration == Some(p))
  }

  lemma ObtainedRemembers(setup: Setup, e: Enrollment, step: Step)
    requires Obtained(setup, e, step).Some?
    ensures Remembers(Next(setup, e, step), step.id, Obtained(setup, e, step).value)
    ensures Obtained(setup, e, step).value.request == step.request
  {
    hide Obtain, ValidRequest, ValidId, Expired, Holds;
    var inner := setup.(endpoint := e.leases[step.id].endpoint);
    ObtainedHolds(inner, e.stores, step.request, step.serverKey, step.fault.add);
  }

  lemma ReceiveHolds(setup: Setup, e: Enrollment, lease: LeaseId, r: Request, now: Time, serverKey: Option<Key>,
                     fault: ReceiveFault, name: string, p: Registration)
    requires Holds(e.stores.registry, name, p)
    ensures Holds(Receive(setup, e, lease, r, now, serverKey, fault).0.stores.registry, name, p)
  {
    hide Add, Holds, ValidRequest, ValidId, Expired;
    if lease in e.leases {
      AddHolds(setup.(endpoint := e.leases[lease].endpoint), e.stores, r, None, serverKey, fault.add, name, p);
    }
  }

  /** A request for a lease that is bound to a registered request: other requests are denied, and this one gets the
      registration unless the lease is revoked or expired or its file cannot be written. */
  lemma RetryAnswer(setup: Setup, e: Enrollment, id: LeaseId, p: Registration, r: Request, now: Time,
                    serverKey: Option<Key>, fault: ReceiveFault)
    requires Remembers(e, id, p)
    ensures var (after, answer) := Receive(setup, e, id, r, now, serverKey, fault);
            && after.stores == e.stores && id in after.leases && BoundTo(after.leases[id], p)
            && answer == if || r != p.request || e.leases[id].state == Revoked || Expired(e.leases[id], now)
                            || (e.leases[id].state == Authorized && (fault.bind || fault.complete))
                         then Denied else Granted(p)
  {
    hide Add, ValidRequest, ValidId, Expired;
  }

  lemma StepRemembers(setup: Setup, e: Enrollment, step: Step, id: LeaseId, p: Registration)
    requires Remembers(e, id, p)
    requires step.Managing? ==> !Removes(setup, e.stores, step.operation, p.request.hostname)
    ensures Remembers(Next(setup, e, step), id, p)
  {
    match step
    case Receiving(lease, r, now, serverKey, fault) =>
      ReceiveHolds(setup, e, lease, r, now, serverKey, fault, p.request.hostname, p);
      if lease == id {
        RetryAnswer(setup, e, id, p, r, now, serverKey, fault);
        hide Receive, ValidRequest, ValidId;
      } else {
        hide Checked, Obtain, ValidRequest, ValidId, Holds;
      }
    case Authorizing(_, _, _, _, _, _, _, _, _) =>
      hide ValidLease, ValidRequest, ValidId, PublicKey, Within, Installed;
    case Revoking(_, _) =>
      hide ValidRequest, ValidId, WithoutLease;
    case Managing(op) =>
      RecordStays(setup, e.stores, op, p.request.hostname, p);
      hide Perform, ValidRequest, ValidId, Holds;
  }

  /** Nobody removes the record of that name between two moments of a run. */
  ghost predicate Spared(setup: Setup, e: Enrollment, run: seq<Step>, m: nat, n: nat, name: string)
    requires n <= |run|
  {
    forall i | m <= i < n && run[i].Managing? ::
      !Removes(setup, EnrollmentAt(setup, e, run, i).stores, run[i].operation, name)
  }

  lemma {:induction false} RunRemembers(setup: Setup, e: Enrollment, run: seq<Step>, m: nat, n: nat, id: LeaseId,
                                        p: Registration)
    requires m <= n <= |run| && Remembers(EnrollmentAt(setup, e, run, m), id, p)
    requires Spared(setup, e, run, m, n, p.request.hostname)
    ensures Remembers(EnrollmentAt(setup, e, run, n), id, p)
    decreases n
  {
    hide Next, Remembers, Removes;
    if m < n {
      assert Spared(setup, e, run, m, n - 1, p.request.hostname);
      RunRemembers(setup, e, run, m, n - 1, id, p);
      StepRemembers(setup, EnrollmentAt(setup, e, run, n - 1), run[n - 1], id, p);
    }
  }

  lemma ReceivingAt(setup: Setup, e: Enrollment, run: seq<Step>, n: nat)
    requires n < |run| && run[n].Receiving?
    ensures (EnrollmentAt(setup, e, run, n + 1), AnswerAt(setup, e, run, n, run[n].id))
         == Receive(setup, EnrollmentAt(setup, e, run, n), run[n].id, run[n].request, run[n].now, run[n].serverKey,
                    run[n].fault)
  {
    hide Receive;
  }

  lemma Recalled(setup: Setup, e: Enrollment, run: seq<Step>, m: nat, n: nat) returns (p: Registration)
    requires m < n <= |run| && Obtained(setup, EnrollmentAt(setup, e, run, m), run[m]).Some?
    requires Spared(setup, e, run, m + 1, n, run[m].request.hostname)
    ensures run[m].Receiving? && Obtained(setup, EnrollmentAt(setup, e, run, m), run[m]) == Some(p)
    ensures p.request == run[m].request && Remembers(EnrollmentAt(setup, e, run, n), run[m].id, p)
  {
    hide Next, Remembers, Spared, Obtain, Checked;
    p := Obtained(setup, EnrollmentAt(setup, e, run, m), run[m]).value;
    ObtainedRemembers(setup, EnrollmentAt(setup, e, run, m), run[m]);
    assert EnrollmentAt(setup, e, run, m + 1) == Next(setup, EnrollmentAt(setup, e, run, m), run[m]);
    RunRemembers(setup, e, run, m + 1, n, run[m].id, p);
  }

  lemma RememberedLease(e: Enrollment, id: LeaseId, p: Registration)
    requires Remembers(e, id, p)
    ensures id in e.leases
  {
  }

  /** Once a request has obtained a registration, every later request for the lease, whatever happened in between to
      leases and other peers, leaves the stores alone; the same request gets that registration, even if its completion
      or the answer was lost, unless the lease is revoked or expired or its file cannot be written. */
  lemma LostCompletion(setup: Setup, e: Enrollment, run: seq<Step>, m: nat, n: nat)
    requires m < n < |run| && run[n].Receiving? && Obtained(setup, EnrollmentAt(setup, e, run, m), run[m]).Some?
    requires run[n].id == run[m].id
    requires Spared(setup, e, run, m + 1, n, run[m].request.hostname)
    ensures var (before, step) := (EnrollmentAt(setup, e, run, n), run[n]);
            && run[m].id in before.leases
            && EnrollmentAt(setup, e, run, n + 1).stores == before.stores
            && AnswerAt(setup, e, run, n, run[m].id)
            == if || step.request != run[m].request
                  || before.leases[step.id].state == Revoked || Expired(before.leases[step.id], step.now)
                  || (before.leases[step.id].state == Authorized && (step.fault.bind || step.fault.complete))
               then Denied
               else Granted(Obtained(setup, EnrollmentAt(setup, e, run, m), run[m]).value)
  {
    hide *;
    var p := Recalled(setup, e, run, m, n);
    var before := EnrollmentAt(setup, e, run, n);
    ReceivingAt(setup, e, run, n);
    RetryAnswer(setup, before, run[n].id, p, run[n].request, run[n].now, run[n].serverKey, run[n].fault);
    RememberedLease(before, run[n].id, p);
  }

  // ---------------------------------------------------------------- requests and the registry

  lemma AgreedEndpoint(setup: Setup, s: Stores, inner: Setup)
    requires Agreed(setup, s) && inner.notation == setup.notation
    ensures Agreed(inner, s)
  {
    hide Peers, Consistent, Exclusive;
  }

  /** A request changes the registry by at most its own record, which was not there before under any name. */
  lemma OwnRecordOnly(setup: Setup, e: Enrollment, id: LeaseId, r: Request, now: Time, serverKey: Option<Key>,
                      fault: ReceiveFault)
    requires Agreed(setup, e.stores) && Sound(setup.notation)
    requires Receive(setup, e, id, r, now, serverKey, fault).0.stores != e.stores
    ensures var after := Receive(setup, e, id, r, now, serverKey, fault).0;
            && !Duplicate(Records(e.stores.registry), r)
            && after.leases[id].request == Some(r)
            && (after.stores.registry == e.stores.registry
                || (r.hostname in Records(after.stores.registry) && Records(after.stores.registry)[r.hostname].request == r
                    && Records(after.stores.registry) - {r.hostname} == Records(e.stores.registry)))
  {
    var inner := setup.(endpoint := e.leases[id].endpoint);
    var a := AddIsTransaction(inner, e.stores, r, None, serverKey, fault.add);
    hide Checked, Add, Duplicate, Cleared, AddAt;
    assert Known(e.stores.registry, r) ==> Obtain(inner, e.stores, r, serverKey, fault.add).0 == e.stores;
    assert a.Some?;
    OwnRecordAt(setup, inner, e.stores, r, a.value, serverKey.value, fault.add);
  }

  lemma OwnRecordAt(setup: Setup, inner: Setup, s: Stores, r: Request, a: Address, serverKey: Key, fault: Fault)
    requires Agreed(setup, s) && Cleared(inner, s, r, a)
    ensures var after := AddAt(inner, s, r, a, serverKey, fault).0;
            && !Duplicate(Records(s.registry), r)
            && (after.registry == s.registry
                || (r.hostname in Records(after.registry) && Records(after.registry)[r.hostname].request == r
                    && Records(after.registry) - {r.hostname} == Records(s.registry)))
  {
    var done := Wanted(inner, s, r, a, serverKey);
    ClearedPrepared(inner, s, r, a);
    ClearedFacts(inner, s, r, a);
    assert Exclusive(s.live) && !Duplicate(Records(s.registry), r);
    assert Records(done.registry) - {r.hostname} == Records(s.registry);
    hide Agreed, Transaction, Cleared, Duplicate, Exclusive, Prepared, Peers, Added;
    Halfway(s, done.config, done.registry.value, r.key, Some(a), fault);
  }

  // ---------------------------------------------------------------- agreement of the stores

  predicate Recovers(reply: Reply) {
    reply != Failed(Broken)
  }

  /** No compensation fails in this step. */
  ghost predicate Recoverable(setup: Setup, e: Enrollment, step: Step) {
    match step
    case Receiving(id, r, now, serverKey, fault) =>
      id in e.leases
      ==> Recovers(Obtain(setup.(endpoint := e.leases[id].endpoint), e.stores, r, serverKey, fault.add).1)
    case Managing(op) => Recovers(Perform(setup, e.stores, op).1)
    case _ => true
  }

  lemma ReceiveAgreed(setup: Setup, e: Enrollment, id: LeaseId, r: Request, now: Time, serverKey: Option<Key>,
                      fault: ReceiveFault)
    requires Sound(setup.notation) && Agreed(setup, e.stores)
    requires Recoverable(setup, e, Receiving(id, r, now, serverKey, fault))
    ensures Agreed(setup, Receive(setup, e, id, r, now, serverKey, fault).0.stores)
  {
    if id in e.leases {
      var inner := setup.(endpoint := e.leases[id].endpoint);
      AgreedEndpoint(setup, e.stores, inner);
      AddKeeps(inner, e.stores, r, None, serverKey, fault.add);
      hide Add, Agreed, Sound, Checked;
      var after := Receive(setup, e, id, r, now, serverKey, fault).0.stores;
      assert Agreed(inner, after);
      AgreedEndpoint(inner, after, setup);
    }
  }

  lemma StepAgreed(setup: Setup, e: Enrollment, step: Step)
    requires Sound(setup.notation) && Agreed(setup, e.stores) && Recoverable(setup, e, step)
    ensures Agreed(setup, Next(setup, e, step).stores)
  {
    hide Agreed, Sound, Receive, Add, Remove, Obtain;
    match step
    case Receiving(id, r, now, serverKey, fault) => ReceiveAgreed(setup, e, id, r, now, serverKey, fault);
    case Managing(op) =>
      match op {
        case Adding(r, requested, serverKey, fault) => AddKeeps(setup, e.stores, r, requested, serverKey, fault);
        case Removing(name, fault) => RemoveKeeps(setup, e.stores, name, fault);
      }
    case Authorizing(_, _, _, _, _, _, _, _, _) =>
    case Revoking(_, _) =>
  }

  /** Leases and local administration together keep configuration, registry and kernel in agreement. */
  lemma {:induction false} EnrollmentAgreed(setup: Setup, e: Enrollment, run: seq<Step>, n: nat)
    requires Sound(setup.notation) && Agreed(setup, e.stores) && n <= |run|
    requires forall k | 0 <= k < n :: Recoverable(setup, EnrollmentAt(setup, e, run, k), run[k])
    ensures Agreed(setup, EnrollmentAt(setup, e, run, n).stores)
  {
    hide Agreed, Sound, Next, Recoverable;
    if n > 0 {
      EnrollmentAgreed(setup, e, run, n - 1);
      StepAgreed(setup, EnrollmentAt(setup, e, run, n - 1), run[n - 1]);
    }
  }

  // ---------------------------------------------------------------- peers of others

  lemma LeftEndpoint(setup: Setup, s: Stores, after: Stores, inner: Setup, k: Key)
    requires inner.notation == setup.notation && Foreign(setup, s, k)
    ensures Foreign(inner, s, k) && (Left(inner, s, after, k) <==> Left(setup, s, after, k))
  {
    hide Peers, Exclusive, Unmanaged;
  }

  lemma NothingLeft(setup: Setup, s: Stores, k: Key)
    requires Foreign(setup, s, k)
    ensures Left(setup, s, s, k)
  {
    hide Peers, Exclusive, Unmanaged;
  }

  lemma LeftTwice(setup: Setup, s: Stores, middle: Stores, after: Stores, k: Key)
    requires Foreign(setup, s, k) && Left(setup, s, middle, k)
    ensures Foreign(setup, middle, k) && (Left(setup, middle, after, k) ==> Left(setup, s, after, k))
  {
    hide Peers, Exclusive, Unmanaged;
  }

  lemma ObtainLeaves(setup: Setup, inner: Setup, s: Stores, r: Request, serverKey: Option<Key>, fault: Fault, k: Key)
    requires Sound(setup.notation) && Foreign(setup, s, k) && inner.notation == setup.notation
    ensures Left(setup, s, Obtain(inner, s, r, serverKey, fault).0, k)
  {
    hide Add, Sound, Left, Foreign;
    LeftEndpoint(setup, s, Add(inner, s, r, None, serverKey, fault).0, inner, k);
    AddLeaves(inner, s, r, None, serverKey, fault, k);
    NothingLeft(setup, s, k);
  }

  lemma StepLeaves(setup: Setup, e: Enrollment, step: Step, k: Key)
    requires Sound(setup.notation) && Foreign(setup, e.stores, k)
    ensures Left(setup, e.stores, Next(setup, e, step).stores, k)
  {
    hide Sound, Left, Foreign, Obtain, Checked, Add, Remove, ValidLease, PublicKey, Within, Installed, WithoutLease;
    NothingLeft(setup, e.stores, k);
    match step
    case Receiving(id, r, now, serverKey, fault) =>
      if id in e.leases {
        ObtainLeaves(setup, setup.(endpoint := e.leases[id].endpoint), e.stores, r, serverKey, fault.add, k);
      } else {
        UnknownLease(setup, e, id, r, now, serverKey, fault);
      }
    case Managing(op) =>
      match op {
        case Adding(r, requested, serverKey, fault) => AddLeaves(setup, e.stores, r, requested, serverKey, fault, k);
        case Removing(name, fault) => RemoveLeaves(setup, e.stores, name, fault, k);
      }
    case Authorizing(_, _, _, _, _, _, _, _, _) =>
    case Revoking(_, _) =>
  }

  lemma UnknownLease(setup: Setup, e: Enrollment, id: LeaseId, r: Request, now: Time, serverKey: Option<Key>,
                     fault: ReceiveFault)
    requires id !in e.leases
    ensures Receive(setup, e, id, r, now, serverKey, fault) == (e, Denied)
  {
    hide Obtain, ValidRequest, ValidId;
  }

  /** A peer that was not registered never changes, whatever leases and administrators do and whatever fails. */
  lemma {:induction false} OthersStay(setup: Setup, e: Enrollment, run: seq<Step>, n: nat, k: Key)
    requires Sound(setup.notation) && Foreign(setup, e.stores, k) && n <= |run|
    ensures Left(setup, e.stores, EnrollmentAt(setup, e, run, n).stores, k)
  {
    hide Sound, Left, Foreign, Next;
    if n == 0 {
      NothingLeft(setup, e.stores, k);
    } else {
      var last := EnrollmentAt(setup, e, run, n - 1);
      OthersStay(setup, e, run, n - 1, k);
      LeftTwice(setup, e.stores, last.stores, Next(setup, last, run[n - 1]).stores, k);
      StepLeaves(setup, last, run[n - 1], k);
    }
  }

  // ---------------------------------------------------------------- other operations in between

  /** A request as it runs when others come in between: the checks and the reading of the registry happen at `e`, the
      addition and the writing of the completion at `later`. The lease itself is locked all the time. */
  ghost function ReceiveApart(setup: Setup, e: Enrollment, later: Enrollment, id: LeaseId, r: Request, now: Time,
                              serverKey: Option<Key>, fault: ReceiveFault): (Enrollment, Answer)
    requires id in later.leases
  {
    var checked := Checked(e.leases, id, r, now);
    if checked.Some? then (later, checked.value)
    else if fault.bind then (later, Denied)
    else
      var bound := later.leases[id].(request := Some(r));
      var (stores, reply) :=
        if Known(e.stores.registry, r) then (later.stores, Registered(Records(e.stores.registry)[r.hostname]))
        else Add(setup.(endpoint := bound.endpoint), later.stores, r, None, serverKey, fault.add);
      var between := later.(leases := later.leases[id := bound], stores := stores);
      if !reply.Registered? || fault.complete then (between, Denied)
      else
        (between.(leases := later.leases[id := bound.(state := Completed, registration := Some(reply.registration))]),
         Granted(reply.registration))
  }

  lemma AddRefused(setup: Setup, s: Stores, r: Request, serverKey: Option<Key>, fault: Fault)
    requires Known(s.registry, r)
    ensures Add(setup, s, r, None, serverKey, fault) == (s, Refused)
  {
    var a := AddIsTransaction(setup, s, r, None, serverKey, fault);
    if a.Some? {
      ClearedFacts(setup, s, r, a.value);
      assert false;
    }
  }

  /** Nothing else can come of it than of one undivided request: if the registry knew the request, of one before the
      others; if not, of one after them, whose completion may have been lost. */
  lemma Undivided(setup: Setup, e: Enrollment, later: Enrollment, id: LeaseId, r: Request, now: Time,
                  serverKey: Option<Key>, fault: ReceiveFault)
    requires id in e.leases && id in later.leases && later.leases[id] == e.leases[id]
    ensures var (after, answer) := ReceiveApart(setup, e, later, id, r, now, serverKey, fault);
            var first := Receive(setup, e, id, r, now, serverKey, fault);
            var last := Receive(setup, later, id, r, now, serverKey, fault);
            var lost := Receive(setup, later, id, r, now, serverKey, fault.(complete := true));
            if Known(e.stores.registry, r)
            then answer == first.1 && first.0.stores == e.stores
              && first.0 == e.(leases := e.leases[id := first.0.leases[id]])
              && after == later.(leases := later.leases[id := first.0.leases[id]])
            else (after, answer) in {last, lost}
  {
    hide Add, ValidRequest, ValidId, Expired, Known;
    if Known(later.stores.registry, r) && !Known(e.stores.registry, r) {
      AddRefused(setup.(endpoint := later.leases[id].endpoint), later.stores, r, serverKey, fault.add);
    }
    assert later.leases[id := later.leases[id]] == later.leases && e.leases[id := e.leases[id]] == e.leases;
  }

  // ---------------------------------------------------------------- keys

  /** A revocation takes back what the authorization wrote; of the keys only line feeds at the end can differ. */
  lemma RevokeUndoesAuthorize(e: Enrollment, id: LeaseId, device: string, hostname: string, file: string,
                              endpoint: string, ttl: int, now: Time, stamp: Stamp, fails: bool)
    requires ValidId(id) && id !in e.leases && !HasLine(e.keys, id)
    requires id in Authorize(e, id, device, hostname, file, endpoint, ttl, now, stamp, fails).leases
    ensures var granted := Authorize(e, id, device, hostname, file, endpoint, ttl, now, stamp, fails);
            var revoked := Revoke(granted, id, NoFault);
            && revoked.keys == TrimFeeds(e.keys) + "\n" && revoked.stores == e.stores
            && revoked.leases == granted.leases[id := granted.leases[id].(state := Revoked)]
            && revoked.leases - {id} == e.leases
  {
    hide HasLine, ValidLease, ValidId, Within, Words, Ed25519, TrimFeeds, WithoutLease, Installed, Marked, OneLine,
         LeaseLine;
    var public := PublicKey(file).value;
    LeaseLineMark(id, stamp, public, id);
    RemovedAgain(e.keys, id, LeaseLine(id, stamp, public));
  }

  /** The step creates the lease and installs its key. */
  ghost predicate Installs(setup: Setup, e: Enrollment, step: Step, id: LeaseId) {
    step.Authorizing? && id !in e.leases && id in Next(setup, e, step).leases
  }

  /** The step revokes the lease and takes its key out. */
  predicate Uninstalls(e: Enrollment, step: Step, id: LeaseId) {
    step == Revoking(id, NoFault) && id in e.leases
  }

  lemma InstalledKeys(keys: string, lease: LeaseId, stamp: Stamp, file: string, id: LeaseId)
    requires ValidId(lease) && ValidId(id) && PublicKey(file).Some?
    ensures HasLine(Installed(keys, LeaseLine(lease, stamp, PublicKey(file).value)), id)
       <==> HasLine(keys, id) || id == lease
  {
    hide HasLine, ValidId, Ed25519, Words, Installed, LeaseLine, Marked, OneLine;
    var public := PublicKey(file).value;
    LeaseLineMark(lease, stamp, public, id);
    HasLineInstalled(keys, LeaseLine(lease, stamp, public), id);
  }

  /** Every step decides exactly which leases have a line among the keys. */
  lemma StepKeys(setup: Setup, e: Enrollment, step: Step, id: LeaseId)
    requires ValidId(id)
    ensures HasLine(Next(setup, e, step).keys, id)
       <==> Installs(setup, e, step, id) || (HasLine(e.keys, id) && !Uninstalls(e, step, id))
  {
    match step
    case Receiving(lease, r, now, serverKey, fault) =>
      hide Checked, Obtain, HasLine;
    case Managing(_) =>
      hide Perform, HasLine;
    case Revoking(lease, fault) =>
      hide HasLine, WithoutLease, ValidId;
      if ValidId(lease) {
        HasLineWithout(e.keys, lease, id);
      }
    case Authorizing(lease, device, hostname, file, endpoint, ttl, now, stamp, fails) =>
      hide HasLine, Within, ValidLease, PublicKey, ValidId, Installed, LeaseLine;
      if ValidId(lease) && PublicKey(file).Some? {
        InstalledKeys(e.keys, lease, stamp, file, id);
      }
  }

  /** A lease's key is installed exactly from its authorization to its revocation. */
  lemma {:induction false} KeyInstalledExactly(setup: Setup, e: Enrollment, run: seq<Step>, n: nat, id: LeaseId)
    requires n <= |run| && ValidId(id) && !HasLine(e.keys, id)
    ensures HasLine(EnrollmentAt(setup, e, run, n).keys, id)
       <==> exists m | 0 <= m < n :: && Installs(setup, EnrollmentAt(setup, e, run, m), run[m], id)
                                     && NotUninstalled(setup, e, run, m, n, id)
  {
    hide Next, Installs, Uninstalls, ValidId, HasLine;
    if n > 0 {
      KeyInstalledExactly(setup, e, run, n - 1, id);
      StepKeys(setup, EnrollmentAt(setup, e, run, n - 1), run[n - 1], id);
    }
  }

  ghost predicate NotUninstalled(setup: Setup, e: Enrollment, run: seq<Step>, m: nat, n: nat, id: LeaseId)
    requires n <= |run|
  {
    forall k | m < k < n :: !Uninstalls(EnrollmentAt(setup, e, run, k), run[k], id)
  }
}
