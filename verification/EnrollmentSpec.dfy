/** One-shot enrollment leases (scripts/kdx-wg-enroll.py) in front of the peer registry. */
module EnrollmentSpec {
  import opened Prelude
  import opened PeerConfig
  import opened PeerEdits
  import opened PeerServerSpec
  import opened AuthorizedKeys

  datatype LeaseState = Authorized | Completed | Revoked

  /** A lease file. `request` and `registration` are absent from a new one. */
  datatype Grant = Grant(expires: nat, device: string, hostname: string, public: string, endpoint: string,
                         state: LeaseState, request: Option<Request>, registration: Option<Registration>)

  /** `keys` is the text of authorized_keys. */
  datatype Enrollment = Enrollment(leases: map<LeaseId, Grant>, keys: string, stores: Stores)

  datatype Answer = Granted(registration: Registration) | Denied

  /** Which of the two lease writes fails, and what happens inside `add`. */
  datatype ReceiveFault = ReceiveFault(bind: bool, add: Fault, complete: bool)

  predicate Expired(g: Grant, now: Time) {
    now >= g.expires * SECOND
  }

  /** The checks before anything is written: `Some` is the answer they lead to. */
  function Checked(leases: map<LeaseId, Grant>, id: LeaseId, r: Request, now: Time): Option<Answer> {
    if !ValidRequest(r) || !ValidId(id) || id !in leases then Some(Denied)
    else
      var g := leases[id];
      if g.state == Revoked || Expired(g, now) then Some(Denied)
      else if r.device != g.device || r.hostname != g.hostname then Some(Denied)
      else if g.state == Completed then
        Some(if g.request == Some(r) && g.registration.Some? then Granted(g.registration.value) else Denied)
      else if g.request.Some? && g.request != Some(r) then Some(Denied)
      else None
  }

  predicate Known(registry: Option<Registry>, r: Request) {
    r.hostname in Records(registry) && Records(registry)[r.hostname].request == r
  }

  /** The registration comes from the registry if it is there already, otherwise from `add`. */
  ghost function Obtain(setup: Setup, s: Stores, r: Request, serverKey: Option<Key>, fault: Fault): (Stores, Reply) {
    if Known(s.registry, r) then (s, Registered(Records(s.registry)[r.hostname]))
    else Add(setup, s, r, None, serverKey, fault)
  }

  ghost function Receive(setup: Setup, e: Enrollment, id: LeaseId, r: Request, now: Time, serverKey: Option<Key>,
                         fault: ReceiveFault): (Enrollment, Answer)
  {
    var checked := Checked(e.leases, id, r, now);
    if checked.Some? then (e, checked.value)
    else if fault.bind then (e, Denied)
    else
      var bound := e.leases[id].(request := Some(r));
      var (stores, reply) := Obtain(setup.(endpoint := bound.endpoint), e.stores, r, serverKey, fault.add);
      var between := e.(leases := e.leases[id := bound], stores := stores);
      if !reply.Registered? || fault.complete then (between, Denied)
      else
        (between.(leases := e.leases[id := bound.(state := Completed, registration := Some(reply.registration))]),
         Granted(reply.registration))
  }

  datatype RevokeFault = NoFault | LeaseWrite | KeysWrite

  function Revoke(e: Enrollment, id: LeaseId, fault: RevokeFault): Enrollment {
    if !ValidId(id) || id !in e.leases || fault == LeaseWrite then e
    else
      var marked := e.(leases := e.leases[id := e.leases[id].(state := Revoked)]);
      if fault == KeysWrite then marked else marked.(keys := WithoutLease(e.keys, id))
  }

  /** What is asked of a new lease. */
  predicate ValidLease(device: string, hostname: string, endpoint: string, ttl: int) {
    ValidDevice(device) && ValidName(hostname) && 60 <= ttl <= 1800 && ValidEndpoint(endpoint)
  }

  /** A new lease with a fresh id; `stamp` writes its expiry. A key that occurs anywhere in the text is refused, so
      that broader access is never taken for a lease, and the lease is taken back when the key cannot be installed. */
  function Authorize(e: Enrollment, id: LeaseId, device: string, hostname: string, file: string, endpoint: string,
                     ttl: int, now: Time, stamp: Stamp, fails: bool): Enrollment
  {
    var public := PublicKey(file);
    if !ValidLease(device, hostname, endpoint, ttl) || public.None? || Within(public.value, e.keys) || fails then e
    else
      e.(leases := e.leases[id := Grant(Seconds(now) + ttl, device, hostname, public.value, endpoint, Authorized, None,
                                        None)],
         keys := Installed(e.keys, LeaseLine(id, stamp, public.value)))
  }
}
