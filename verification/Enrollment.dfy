/** The lease files and the authorized keys as the enrollment command rewrites them, one write after the other. */
module Enrollments {
  import opened Prelude
  import opened PeerConfig
  import opened PeerEdits
  import opened PeerServerSpec
  import opened PeerServer
  import opened AuthorizedKeys
  import opened EnrollmentSpec

  lemma {:induction false} ConcatSnoc(lines: seq<string>, line: string)
    ensures Concat(lines + [line]) == Concat(lines) + line
  {
    if lines == [] {
      assert lines + [line] == [line];
    } else {
      assert (lines + [line])[1..] == lines[1..] + [line];
      ConcatSnoc(lines[1..], line);
    }
  }

  lemma NothingKept(id: LeaseId)
    ensures Concat(Unmarked([], id)) == ""
  {
  }

  class EnrollmentServer {
    const setup: Setup
    var leases: map<LeaseId, Grant>
    var keys: string
    var stores: Stores

    constructor (setup: Setup, keys: string, stores: Stores)
      ensures this.setup == setup && State() == Enrollment(map[], keys, stores)
    {
      this.setup, this.keys, this.stores := setup, keys, stores;
      leases := map[];
    }

    function State(): Enrollment
      reads this
    {
      Enrollment(leases, keys, stores)
    }

    /** `failsLease` and `failsKeys`: one of the two writes fails; the second failure takes the lease back. */
    method Authorize(id: LeaseId, device: string, hostname: string, file: string, endpoint: string, ttl: int, now: Time,
                     stamp: Stamp, failsLease: bool, failsKeys: bool)
      requires id !in leases
      modifies this`leases, this`keys
      ensures State() == EnrollmentSpec.Authorize(old(State()), id, device, hostname, file, endpoint, ttl, now, stamp,
                                                  failsLease || failsKeys)
    {
      if !ValidDevice(device) || !ValidName(hostname) || ttl < 60 || ttl > 1800 || !ValidEndpoint(endpoint) {
        return;
      }
      var public := PublicKey(file);
      if public.None? || Within(public.value, keys) || failsLease {
        return;
      }
      leases := leases[id := Grant(Seconds(now) + ttl, device, hostname, public.value, endpoint, Authorized, None, None)];
      if failsKeys {
        leases := leases - {id};
        return;
      }
      keys := TrimFeeds(keys) + "\n" + (LeaseLine(id, stamp, public.value) + "\n");
    }

    method Receive(id: LeaseId, r: Request, now: Time, serverKey: Option<Key>, fault: ReceiveFault) returns (answer: Answer)
      modifies this`leases, this`stores
      ensures (State(), answer) == EnrollmentSpec.Receive(setup, old(State()), id, r, now, serverKey, fault)
    {
      hide Add, ValidRequest, ValidId, Expired;
      if !ValidRequest(r) || !ValidId(id) || id !in leases {
        return Denied;
      }
      var grant := leases[id];
      if grant.state == Revoked || Expired(grant, now) {
        return Denied;
      }
      if r.device != grant.device || r.hostname != grant.hostname {
        return Denied;
      }
      if grant.state == Completed {
        return if grant.request == Some(r) && grant.registration.Some? then Granted(grant.registration.value) else Denied;
      }
      if grant.request.Some? && grant.request != Some(r) {
        return Denied;
      }
      grant := grant.(request := Some(r));
      if fault.bind {
        return Denied;
      }
      leases := leases[id := grant];
      var registration: Registration;
      if Known(stores.registry, r) {
        registration := Records(stores.registry)[r.hostname];
      } else {
        var manager := new PeerRegistry(setup.(endpoint := grant.endpoint), stores);
        var reply := manager.Add(r, None, serverKey, fault.add);
        stores := manager.State();
        if !reply.Registered? {
          return Denied;
        }
        registration := reply.registration;
      }
      grant := grant.(state := Completed, registration := Some(registration));
      if fault.complete {
        return Denied;
      }
      assert leases[id := grant] == old(leases)[id := grant];
      leases := leases[id := grant];
      answer := Granted(registration);
    }

    method Revoke(id: LeaseId, fault: RevokeFault)
      modifies this`leases, this`keys
      ensures State() == EnrollmentSpec.Revoke(old(State()), id, fault)
    {
      if !ValidId(id) || id !in leases || fault == LeaseWrite {
        return;
      }
      leases := leases[id := leases[id].(state := Revoked)];
      if fault == KeysWrite {
        return;
      }
      hide CutLines, Marked, Unmarked, Concat;
      var lines, kept := CutLines(keys), "";
      NothingKept(id);
      for i := 0 to |lines|
        invariant leases == old(leases[id := leases[id].(state := Revoked)]) && stores == old(stores)
        invariant kept == Concat(Unmarked(lines[..i], id))
      {
        assert lines[..i + 1] == lines[..i] + [lines[i]];
        UnmarkedSnoc(lines[..i], lines[i], id);
        ConcatSnoc(Unmarked(lines[..i], id), lines[i]);
        if !Marked(lines[i], id) {
          kept := kept + lines[i];
        } else {
          assert Unmarked(lines[..i], id) + [] == Unmarked(lines[..i], id);
        }
      }
      assert lines[..|lines|] == lines;
      keys := kept;
    }
  }
}
