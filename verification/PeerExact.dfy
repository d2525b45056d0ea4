/** Exactly which additions and removals of peers succeed, and which address an addition gives out. */
module PeerExact {
  import opened Prelude
  import opened ConfigText
  import opened PeerConfig
  import opened PeerEdits
  import opened PeerServerSpec
  import opened PeerAgreement

  // ---------------------------------------------------------------- addresses

  ghost predicate CarriedBy(peers: map<Key, seq<Network>>, a: Address) {
    exists k, net :: k in peers && net in peers[k] && Covers(net, a)
  }

  /** An address is taken by a peer of the file, a peer of the kernel, a registered peer, or an interface. */
  lemma TakenExactly(file: map<Key, seq<Network>>, live: map<Key, seq<Network>>, records: Registry, hosts: seq<Network>,
                     a: Address)
    ensures Taken(file, live, records, hosts, a)
       <==> || CarriedBy(file, a) || CarriedBy(live, a) || (exists name :: name in records && records[name].address == a)
            || (exists net :: net in hosts && Covers(net, a))
  {
    if Taken(file, live, records, hosts, a) {
      var net :| Used(file, live, records, hosts, net) && Covers(net, a);
    }
    if k, net :| k in file && net in file[k] && Covers(net, a) {
      assert Listed(file, net) && Used(file, live, records, hosts, net);
    }
    if k, net :| k in live && net in live[k] && Covers(net, a) {
      assert Listed(live, net) && Used(file, live, records, hosts, net);
    }
    if name :| name in records && records[name].address == a {
      assert Used(file, live, records, hosts, Host(records[name].address));
    }
    if net :| net in hosts && Covers(net, a) {
      assert Used(file, live, records, hosts, net);
    }
  }

  /** Without a request the lowest address of the pool that is not taken, and none exactly if all are; with a request
      exactly that address, if it lies in the pool and is not taken. */
  lemma AllocateExactly(setup: Setup, file: map<Key, seq<Network>>, live: map<Key, seq<Network>>, records: Registry,
                        hosts: seq<Network>, requested: Option<Address>)
    ensures var r := Allocate(setup, file, live, records, hosts, requested);
            && (requested.None? ==>
                 && (r.None? <==> forall b | setup.start <= b <= setup.end :: Taken(file, live, records, hosts, b))
                 && (r.Some? ==>
                      && setup.start <= r.value <= setup.end && !Taken(file, live, records, hosts, r.value)
                      && forall b | setup.start <= b < r.value :: Taken(file, live, records, hosts, b)))
            && (requested.Some? ==>
                 && (r.Some? <==> && setup.start <= requested.value <= setup.end
                                  && !Taken(file, live, records, hosts, requested.value))
                 && (r.Some? ==> r == requested))
  {
    hide Taken;
    LeastFree(file, live, records, hosts, setup.start, setup.end);
  }

  lemma {:induction false} HostsExactly(n: Notation, items: seq<string>)
    ensures Hosts(n, items).Some? <==> forall i | 0 <= i < |items| :: n.host(Strip(items[i])).Some?
    ensures Hosts(n, items).Some? ==>
              && |Hosts(n, items).value| == |items|
              && forall i | 0 <= i < |items| :: n.host(Strip(items[i])) == Some(Hosts(n, items).value[i])
  {
    hide Strip;
    if items != [] {
      HostsExactly(n, items[1..]);
      assert items == [items[0]] + items[1..];
      if Hosts(n, items[1..]).Some? && n.host(Strip(items[0])).Some? {
        assert Hosts(n, items).value == [n.host(Strip(items[0])).value] + Hosts(n, items[1..]).value;
      }
      if exists i :: 0 <= i < |items| - 1 && n.host(Strip(items[1..][i])).None? {
        var i :| 0 <= i < |items| - 1 && n.host(Strip(items[1..][i])).None?;
        assert n.host(Strip(items[i + 1])).None?;
      }
    }
  }

  /** An address that was given out is no address of the interface, of which a configuration may name several in one
      setting. */
  lemma NotTheInterface(n: Notation, text: string, file: map<Key, seq<Network>>, live: map<Key, seq<Network>>,
                        records: Registry, a: Address, i: nat)
    requires InterfaceHosts(n, text).Some? && !Taken(file, live, records, InterfaceHosts(n, text).value, a)
    requires i < |Items(Values(text, "address"))|
    ensures n.host(Strip(Items(Values(text, "address"))[i])).Some?
    ensures !Covers(n.host(Strip(Items(Values(text, "address"))[i])).value, a)
  {
    hide Strip, Items, Values;
    var items := Items(Values(text, "address"));
    HostsExactly(n, items);
    TakenExactly(file, live, records, InterfaceHosts(n, text).value, a);
    assert InterfaceHosts(n, text).value[i] in InterfaceHosts(n, text).value;
  }

  // ---------------------------------------------------------------- additions

  /** Nothing stands against adding the peer: the request is well formed, the tool may write the configuration and can
      read it, and name, key, device and request are new everywhere. */
  ghost predicate Eligible(setup: Setup, s: Stores, r: Request) {
    && ValidRequest(r) && ValidEndpoint(setup.endpoint)
    && !(exists v :: v in Values(s.config, "saveconfig") && Lower(v) == "true")
    && Peers(setup.notation, s.config).Some? && InterfaceHosts(setup.notation, s.config).Some?
    && r.key !in Peers(setup.notation, s.config).value && r.key !in s.live && r.hostname !in Records(s.registry)
    && forall name | name in Records(s.registry) :: !SameIdentity(Records(s.registry)[name].request, r)
  }

  ghost predicate TakenIn(setup: Setup, s: Stores, a: Address)
    requires Peers(setup.notation, s.config).Some? && InterfaceHosts(setup.notation, s.config).Some?
  {
    Taken(Peers(setup.notation, s.config).value, s.live, Records(s.registry),
          InterfaceHosts(setup.notation, s.config).value, a)
  }

  predicate Faultless(fault: Fault) {
    !fault.prepare && !fault.config && !fault.registry && fault.live == Works
  }

  /** The address an addition has to give out. */
  ghost predicate DueAddress(setup: Setup, s: Stores, requested: Option<Address>, a: Address)
    requires Peers(setup.notation, s.config).Some? && InterfaceHosts(setup.notation, s.config).Some?
  {
    && setup.start <= a <= setup.end && !TakenIn(setup, s, a)
    && (requested.Some? ==> requested == Some(a))
    && (requested.None? ==> forall b | setup.start <= b < a :: TakenIn(setup, s, b))
  }

  lemma DueExactly(setup: Setup, s: Stores, requested: Option<Address>)
    requires Peers(setup.notation, s.config).Some? && InterfaceHosts(setup.notation, s.config).Some?
    ensures var r := Allocate(setup, Peers(setup.notation, s.config).value, s.live, Records(s.registry),
                              InterfaceHosts(setup.notation, s.config).value, requested);
            && (r.Some? ==> DueAddress(setup, s, requested, r.value))
            && (forall a: Address | DueAddress(setup, s, requested, a) :: r == Some(a))
  {
    var file, hosts := Peers(setup.notation, s.config).value, InterfaceHosts(setup.notation, s.config).value;
    hide Peers, InterfaceHosts, Taken;
    AllocateExactly(setup, file, s.live, Records(s.registry), hosts, requested);
    forall a: Address | DueAddress(setup, s, requested, a)
      ensures Allocate(setup, file, s.live, Records(s.registry), hosts, requested) == Some(a)
    {
      assert !TakenIn(setup, s, a);
      if requested.None? {
        var r := Allocate(setup, file, s.live, Records(s.registry), hosts, requested);
        assert r.Some?;
        assert !TakenIn(setup, s, r.value);
      }
    }
  }

  /** A peer is registered exactly if nothing stands against it, there is an address for it, the server's key is known
      and no write fails; it gets that address and what the server is known by. */
  lemma RegisteredExactly(setup: Setup, s: Stores, r: Request, requested: Option<Address>, serverKey: Option<Key>,
                          fault: Fault)
    ensures var reply := Add(setup, s, r, requested, serverKey, fault).1;
            && (reply.Registered? <==> && Eligible(setup, s, r) && serverKey.Some? && Faultless(fault)
                                       && exists a :: DueAddress(setup, s, requested, a))
            && (reply.Registered? ==>
                 && reply.registration.request == r && reply.registration.endpoint == setup.endpoint
                 && Some(reply.registration.serverKey) == serverKey
                 && DueAddress(setup, s, requested, reply.registration.address))
  {
    EligibleMeans(setup, s, r);
    var file, hosts := Peers(setup.notation, s.config), InterfaceHosts(setup.notation, s.config);
    hide Peers, InterfaceHosts, Taken, ValidRequest, ValidEndpoint, SaveConfig, Duplicate, Added, Transaction, Eligible,
         DueAddress, Allocate;
    if file.Some? && hosts.Some? {
      DueExactly(setup, s, requested);
      var address := Allocate(setup, file.value, s.live, Records(s.registry), hosts.value, requested);
      if address.Some? && serverKey.Some? {
        var registration := Registration(r, address.value, setup.endpoint, serverKey.value);
        DoneExactly(s, Added(setup.notation, s.config, r.hostname, r.key, address.value),
                    Records(s.registry)[r.hostname := registration], r.key, address, fault);
      }
    }
  }

  lemma DoneExactly(before: Stores, config: string, records: Registry, key: Key, address: Option<Address>, fault: Fault)
    ensures Transaction(before, config, records, key, address, fault).1 == Done <==> Faultless(fault)
  {
    hide Apply, Give;
  }

  lemma EligibleMeans(setup: Setup, s: Stores, r: Request)
    ensures Eligible(setup, s, r)
       <==> && ValidRequest(r) && ValidEndpoint(setup.endpoint) && !SaveConfig(s.config)
            && Peers(setup.notation, s.config).Some? && InterfaceHosts(setup.notation, s.config).Some?
            && r.key !in Peers(setup.notation, s.config).value && r.key !in s.live && r.hostname !in Records(s.registry)
            && !Duplicate(Records(s.registry), r)
  {
    hide Peers, InterfaceHosts, ValidRequest, ValidEndpoint, Values, Lower;
  }

  // ---------------------------------------------------------------- removals

  /** A peer is removed exactly if the tool registered it, file and kernel agree on its address, and no write fails; only
      in the kernel it may be missing. */
  lemma DeletedExactly(setup: Setup, s: Stores, name: string, fault: Fault)
    ensures Remove(setup, s, name, fault).1 == Deleted
       <==> && ValidName(name) && Faultless(fault)
            && !(exists v :: v in Values(s.config, "saveconfig") && Lower(v) == "true")
            && Peers(setup.notation, s.config).Some? && name in Records(s.registry)
            && var key, due := Records(s.registry)[name].request.key, [Host(Records(s.registry)[name].address)];
               && key in Peers(setup.notation, s.config).value && Peers(setup.notation, s.config).value[key] == due
               && (key in s.live ==> s.live[key] == due)
  {
    if name in Records(s.registry) {
      var key := Records(s.registry)[name].request.key;
      DoneExactly(s, Removed(s.config, key), Records(s.registry) - {name}, key, None, fault);
    }
    hide Peers, Transaction, Removed, ValidName, Values, Lower;
  }
}
