/** Exactly which leases are granted, which requests a lease answers, and what they leave. */
module EnrollmentExact {
  import opened Prelude
  import opened PeerConfig
  import opened PeerEdits
  import opened PeerServerSpec
  import opened PeerExact
  import opened AuthorizedKeys
  import opened EnrollmentSpec
  import opened EnrollmentRuns

  // ---------------------------------------------------------------- authorization and revocation

  /** A lease is granted exactly to a valid device and name, for one to thirty minutes, an endpoint that can be written
      down and a new key; it lasts for the time asked for and is bound to nothing yet. */
  lemma LeaseGrantedExactly(e: Enrollment, id: LeaseId, device: string, hostname: string, file: string, endpoint: string,
                            ttl: int, now: Time, stamp: Stamp, fails: bool)
    requires id !in e.leases
    ensures var after := Authorize(e, id, device, hostname, file, endpoint, ttl, now, stamp, fails);
            && (id in after.leases <==>
                 && ValidDevice(device) && ValidName(hostname) && ValidEndpoint(endpoint) && 60 <= ttl <= 1800 && !fails
                 && PublicKey(file).Some? && !Within(PublicKey(file).value, e.keys))
            && (id !in after.leases ==> after == e)
            && (id in after.leases ==>
                 && after.leases - {id} == e.leases && after.stores == e.stores
                 && var g := after.leases[id];
                    && g.expires == now / 1_000_000 + ttl && g.device == device && g.hostname == hostname
                    && g.endpoint == endpoint && PublicKey(file) == Some(g.public) && g.state == Authorized
                    && g.request.None? && g.registration.None?
                    && Within(g.public, after.keys))
  {
    hide ValidDevice, ValidName, ValidEndpoint, PublicKey, Within, LeaseLine, Installed;
    if PublicKey(file).Some? {
      InstalledWithin(e.keys, id, stamp, PublicKey(file).value);
    }
  }

  /** The same key is refused as long as the line that installed it is there. */
  lemma KeyOnce(e: Enrollment, id: LeaseId, device: string, hostname: string, file: string, endpoint: string, ttl: int,
                now: Time, stamp: Stamp, fails: bool, other: LeaseId, later: Time, stamp': Stamp)
    requires id !in e.leases && id in Authorize(e, id, device, hostname, file, endpoint, ttl, now, stamp, fails).leases
    ensures var after := Authorize(e, id, device, hostname, file, endpoint, ttl, now, stamp, fails);
            Authorize(after, other, device, hostname, file, endpoint, ttl, later, stamp', false) == after
  {
    LeaseGrantedExactly(e, id, device, hostname, file, endpoint, ttl, now, stamp, fails);
    hide ValidLease, PublicKey, Within, LeaseLine, Installed;
  }

  /** A revocation marks the lease and takes its key out; if the key file cannot be written, the lease is revoked all the
      same. */
  lemma RevokedExactly(e: Enrollment, id: LeaseId, fault: RevokeFault)
    requires ValidId(id) && id in e.leases
    ensures var after := Revoke(e, id, fault);
            && (fault == LeaseWrite ==> after == e)
            && (fault != LeaseWrite ==>
                 && id in after.leases && after.leases[id].state == Revoked && after.leases - {id} == e.leases - {id}
                 && after.leases[id] == e.leases[id].(state := Revoked) && after.stores == e.stores)
            && (fault == KeysWrite ==> after.keys == e.keys)
            && (fault == NoFault ==> !HasLine(after.keys, id))
  {
    HasLineWithout(e.keys, id, id);
    hide HasLine, WithoutLease, ValidId;
  }

  // ---------------------------------------------------------------- requests

  /** The lease is for this device and name, neither revoked nor over. */
  predicate MayUse(leases: map<LeaseId, Grant>, id: LeaseId, r: Request, now: Time) {
    && ValidId(id) && ValidRequest(r) && id in leases && leases[id].state != Revoked
    && now < leases[id].expires * 1_000_000 && leases[id].device == r.device && leases[id].hostname == r.hostname
  }

  /** The registry knows the request, or it can be added now. */
  ghost predicate Obtainable(setup: Setup, s: Stores, r: Request, serverKey: Option<Key>, fault: Fault) {
    || (r.hostname in Records(s.registry) && Records(s.registry)[r.hostname].request == r)
    || (Eligible(setup, s, r) && serverKey.Some? && Faultless(fault) && exists a :: DueAddress(setup, s, None, a))
  }

  /** A request is granted exactly if the lease may be used for it, and either was completed with it, or is not bound to
      another one, its file can be written, and the peer is registered already or can be. */
  lemma GrantedExactly(setup: Setup, e: Enrollment, id: LeaseId, r: Request, now: Time, serverKey: Option<Key>,
                       fault: ReceiveFault)
    requires id in e.leases ==> Sensible(e.leases[id])
    ensures Receive(setup, e, id, r, now, serverKey, fault).1.Granted?
       <==> && MayUse(e.leases, id, r, now)
            && var g := e.leases[id];
               if g.state == Completed then g.request == Some(r)
               else && (g.request.Some? ==> g.request.value == r) && !fault.bind && !fault.complete
                    && Obtainable(setup.(endpoint := g.endpoint), e.stores, r, serverKey, fault.add)
  {
    if id in e.leases {
      RegisteredExactly(setup.(endpoint := e.leases[id].endpoint), e.stores, r, None, serverKey, fault.add);
    }
    hide Add, Eligible, DueAddress, ValidRequest, ValidId, Faultless;
  }

  /** A request touches its own lease only, and binds it before anything else. */
  lemma ReceiveLeaves(setup: Setup, e: Enrollment, id: LeaseId, r: Request, now: Time, serverKey: Option<Key>,
                      fault: ReceiveFault)
    ensures var (after, answer) := Receive(setup, e, id, r, now, serverKey, fault);
            && after.leases - {id} == e.leases - {id} && after.keys == e.keys
            && (after != e ==> id in after.leases && after.leases[id].request == Some(r))
            && (Checked(e.leases, id, r, now).None? && !fault.bind ==>
                 id in after.leases && after.leases[id].request == Some(r))
  {
    hide Obtain, ValidRequest, ValidId, Expired;
  }

  /** Once a lease let a request through, even if adding the peer failed then, no other request is ever answered or changes
      anything. */
  lemma BoundForGood(setup: Setup, e: Enrollment, run: seq<Step>, m: nat, n: nat)
    requires m < n < |run| && AllSensible(e.leases) && run[m].Receiving? && run[n].Receiving? && run[n].id == run[m].id
    requires Checked(EnrollmentAt(setup, e, run, m).leases, run[m].id, run[m].request, run[m].now).None?
    requires !run[m].fault.bind && run[n].request != run[m].request
    ensures AnswerAt(setup, e, run, n, run[n].id) == Denied
    ensures EnrollmentAt(setup, e, run, n + 1) == EnrollmentAt(setup, e, run, n)
  {
    hide Receive, ValidRequest, ValidId, Expired, Sensible;
    ReceivingAt(setup, e, run, m);
    ReceivingAt(setup, e, run, n);
    ReceiveLeaves(setup, EnrollmentAt(setup, e, run, m), run[m].id, run[m].request, run[m].now, run[m].serverKey,
                  run[m].fault);
    ReachableSensible(setup, e, run, m + 1);
    LeaseAdvances(setup, e, run, m + 1, n, run[m].id);
    OtherDenied(setup, EnrollmentAt(setup, e, run, n), run[n].id, run[n].request, run[n].now, run[n].serverKey, run[n].fault);
  }

  lemma OtherDenied(setup: Setup, e: Enrollment, id: LeaseId, r: Request, now: Time, serverKey: Option<Key>,
                    fault: ReceiveFault)
    requires id in e.leases && e.leases[id].request.Some? && e.leases[id].request != Some(r)
    ensures Receive(setup, e, id, r, now, serverKey, fault) == (e, Denied)
  {
    hide Obtain, ValidRequest, ValidId, Expired;
  }
}
