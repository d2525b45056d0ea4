/** The stores stay in agreement over every sequence of operations and failures. */
module PeerAgreement {
  import opened Prelude
  import opened PeerConfig
  import opened PeerEdits
  import opened PeerServerSpec

  // ---------------------------------------------------------------- allocation

  /** The allocator finds the lowest free address of the pool, and fails only if there is none. */
  lemma {:induction false} LeastFree(file: map<Key, seq<Network>>, live: map<Key, seq<Network>>, records: Registry,
                                     hosts: seq<Network>, a: Address, end: Address)
    ensures var r := FirstFree(file, live, records, hosts, a, end);
            && (r.None? <==> forall b | a <= b <= end :: Taken(file, live, records, hosts, b))
            && (r.Some? ==> && a <= r.value <= end && !Taken(file, live, records, hosts, r.value)
                            && forall b | a <= b < r.value :: Taken(file, live, records, hosts, b))
    decreases end - a
  {
    hide Taken;
    if a <= end && Taken(file, live, records, hosts, a) {
      LeastFree(file, live, records, hosts, a + 1, end);
    }
  }

  /** An allocated address lies in the pool and nobody has it. */
  lemma AllocatedFree(setup: Setup, file: map<Key, seq<Network>>, live: map<Key, seq<Network>>, records: Registry,
                      hosts: seq<Network>, requested: Option<Address>)
    ensures var r := Allocate(setup, file, live, records, hosts, requested);
            r.Some? ==> setup.start <= r.value <= setup.end && !Taken(file, live, records, hosts, r.value)
  {
    LeastFree(file, live, records, hosts, setup.start, setup.end);
  }

  // ---------------------------------------------------------------- the kernel table

  /** What the kernel guarantees: no network belongs to two peers. */
  predicate Exclusive(live: map<Key, seq<Network>>) {
    forall k, l, net | k in live && l in live && k != l && net in live[k] :: net !in live[l]
  }

  lemma {:induction false} DropNone(nets: seq<Network>, gone: seq<Network>)
    requires forall net | net in nets :: net !in gone
    ensures Drop(nets, gone) == nets
  {
    if nets != [] {
      assert forall net | net in nets[1..] :: net in nets;
      DropNone(nets[1..], gone);
      assert nets == [nets[0]] + nets[1..];
    }
  }

  predicate Unshared(live: map<Key, seq<Network>>, key: Key, nets: seq<Network>) {
    forall k, net | k in live && k != key && net in live[k] :: net !in nets
  }

  /** Networks that nobody else has are taken from nobody. */
  lemma GiveFresh(live: map<Key, seq<Network>>, key: Key, nets: seq<Network>)
    requires Unshared(live, key, nets)
    ensures Give(live, key, nets) == live[key := nets]
  {
    forall k | k in live && k != key
      ensures Drop(live[k], nets) == live[k]
    {
      DropNone(live[k], nets);
    }
  }

  // ---------------------------------------------------------------- the transaction

  /** What `add` and `remove` make sure of before they change anything. */
  predicate Prepared(live: map<Key, seq<Network>>, key: Key, address: Option<Address>) {
    address.Some? ==> key !in live && Unshared(live, key, [Host(address.value)])
  }

  lemma ApplyFresh(live: map<Key, seq<Network>>, key: Key, address: Option<Address>)
    requires Prepared(live, key, address)
    ensures Apply(live, key, address) == if address.Some? then live[key := [Host(address.value)]] else live - {key}
  {
    if address.Some? {
      GiveFresh(live, key, [Host(address.value)]);
    }
  }

  /** Compensation undoes the kernel change whether it had taken effect or not. */
  lemma RestoreLive(live: map<Key, seq<Network>>, key: Key, address: Option<Address>, now: map<Key, seq<Network>>)
    requires Exclusive(live) && Prepared(live, key, address)
    requires now == live || now == Apply(live, key, address)
    ensures (if key in live then Give(now, key, live[key]) else now - {key}) == live
  {
    ApplyFresh(live, key, address);
    if key in live {
      GiveFresh(now, key, live[key]);
      assert now[key := live[key]] == live;
    } else {
      assert now - {key} == live;
    }
  }

  /** A transaction changes all three stores or none of them, wherever it fails, unless its compensation fails. */
  lemma AllOrNothing(before: Stores, config: string, records: Registry, key: Key, address: Option<Address>, fault: Fault)
    requires Exclusive(before.live) && Prepared(before.live, key, address)
    ensures var (after, outcome) := Transaction(before, config, records, key, address, fault);
            && (outcome == Done <==> !fault.prepare && !fault.config && !fault.registry && fault.live == Works)
            && (outcome == Done ==> after == Stores(config, Some(records),
                 if address.Some? then before.live[key := [Host(address.value)]] else before.live - {key}))
            && (outcome in {Untouched, Restored} ==> after == before)
  {
    ApplyFresh(before.live, key, address);
    RestoreLive(before.live, key, address, before.live);
    RestoreLive(before.live, key, address, Apply(before.live, key, address));
    hide Exclusive, Prepared, Apply, Give;
  }

  /** Even when compensation fails, each store holds its old or its new content. */
  lemma Halfway(before: Stores, config: string, records: Registry, key: Key, address: Option<Address>, fault: Fault)
    requires Exclusive(before.live) && Prepared(before.live, key, address)
    ensures var after := Transaction(before, config, records, key, address, fault).0;
            && after.config in {before.config, config}
            && after.registry in {before.registry, Some(records)}
            && after.live in {before.live, if address.Some? then before.live[key := [Host(address.value)]]
                                           else before.live - {key}}
  {
    ApplyFresh(before.live, key, address);
    RestoreLive(before.live, key, address, before.live);
    RestoreLive(before.live, key, address, Apply(before.live, key, address));
    hide Exclusive, Prepared, Apply, Give;
  }

  /** The faults after which everything is as it was before. */
  predicate Undone(before: Stores, key: Key, address: Option<Address>, fault: Fault) {
    || fault.prepare || fault.config
    || (fault.registry && !fault.restoreConfig)
    || (!fault.registry && fault.live.Fails? && !fault.restoreConfig && !fault.restoreRegistry
        && (!fault.restoreLive || !fault.live.applied || Apply(before.live, key, address) == before.live))
  }

  /** A transaction that changes configuration and registry leaves everything as it was exactly after these faults. */
  lemma UnchangedExactly(before: Stores, config: string, records: Registry, key: Key, address: Option<Address>,
                         fault: Fault)
    requires Exclusive(before.live) && Prepared(before.live, key, address)
    requires config != before.config && Some(records) != before.registry
    ensures Transaction(before, config, records, key, address, fault).0 == before <==> Undone(before, key, address, fault)
  {
    RestoreLive(before.live, key, address, before.live);
    RestoreLive(before.live, key, address, Apply(before.live, key, address));
    hide Exclusive, Prepared, Apply, Give;
  }

  /** The stores can be left mixed: the registry could not be written and then the configuration not be restored. */
  lemma Mixed(before: Stores, config: string, records: Registry, key: Key, address: Option<Address>)
    ensures Transaction(before, config, records, key, address, Fault(false, false, true, Works, true, false, false))
         == (Stores(config, before.registry, before.live), Broken)
  {
  }

  /** After an addition the registry can name a peer that the kernel does not have, and the configuration neither. */
  lemma OrphanRecord(before: Stores, config: string, records: Registry, key: Key, a: Address)
    ensures Transaction(before, config, records, key, Some(a), Fault(false, false, false, Fails(false), false, true, false))
         == (Stores(before.config, Some(records), before.live), Broken)
  {
  }

  // ---------------------------------------------------------------- agreement

  /** Every registered peer has exactly its address. */
  predicate Matches(peers: map<Key, seq<Network>>, records: Registry) {
    forall name | name in records ::
      records[name].request.key in peers && peers[records[name].request.key] == [Host(records[name].address)]
  }

  /** Nobody else has an address that was given out. */
  predicate Sole(peers: map<Key, seq<Network>>, records: Registry) {
    forall name, k, net | name in records && k in peers && k != records[name].request.key && net in peers[k] ::
      !Covers(net, records[name].address)
  }

  predicate SameIdentity(p: Request, q: Request) {
    p.key == q.key || p.device == q.device || p.id == q.id
  }

  predicate Distinct(records: Registry) {
    && (forall name | name in records :: records[name].request.hostname == name)
    && (forall m, n | m in records && n in records && SameIdentity(records[m].request, records[n].request) :: m == n)
  }

  predicate Consistent(file: map<Key, seq<Network>>, live: map<Key, seq<Network>>, records: Registry) {
    && Matches(file, records) && Matches(live, records) && Sole(file, records) && Sole(live, records)
    && Distinct(records)
  }

  predicate Agreed(setup: Setup, s: Stores) {
    && Peers(setup.notation, s.config).Some? && Exclusive(s.live)
    && Consistent(Peers(setup.notation, s.config).value, s.live, Records(s.registry))
  }

  lemma TakenBy(file: map<Key, seq<Network>>, live: map<Key, seq<Network>>, records: Registry, hosts: seq<Network>,
                a: Address, net: Network)
    requires !Taken(file, live, records, hosts, a) && Used(file, live, records, hosts, net)
    ensures !Covers(net, a)
  {
  }

  /** What a free address means for the peers. */
  lemma FreeAddress(file: map<Key, seq<Network>>, live: map<Key, seq<Network>>, records: Registry, hosts: seq<Network>,
                    a: Address)
    requires !Taken(file, live, records, hosts, a)
    ensures forall k, net | k in file && net in file[k] :: !Covers(net, a)
    ensures forall k, net | k in live && net in live[k] :: !Covers(net, a)
    ensures forall name | name in records :: records[name].address != a
  {
    forall k, net | k in file && net in file[k]
      ensures !Covers(net, a)
    {
      assert Listed(file, net);
      TakenBy(file, live, records, hosts, a, net);
    }
    forall k, net | k in live && net in live[k]
      ensures !Covers(net, a)
    {
      assert Listed(live, net);
      TakenBy(file, live, records, hosts, a, net);
    }
    forall name | name in records
      ensures records[name].address != a
    {
      TakenBy(file, live, records, hosts, a, Host(records[name].address));
    }
  }

  lemma MatchesAdd(peers: map<Key, seq<Network>>, records: Registry, name: string, r: Registration)
    requires Matches(peers, records) && r.request.key !in peers
    ensures Matches(peers[r.request.key := [Host(r.address)]], records[name := r])
  {
  }

  lemma SoleAdd(peers: map<Key, seq<Network>>, records: Registry, name: string, r: Registration)
    requires Sole(peers, records) && r.request.key !in peers
    requires forall k, net | k in peers && net in peers[k] :: !Covers(net, r.address)
    requires forall n | n in records :: records[n].address != r.address
    ensures Sole(peers[r.request.key := [Host(r.address)]], records[name := r])
  {
  }

  lemma DistinctAdd(records: Registry, r: Registration)
    requires Distinct(records) && r.request.hostname !in records && !Duplicate(records, r.request)
    ensures Distinct(records[r.request.hostname := r])
  {
  }

  lemma MatchesRemove(peers: map<Key, seq<Network>>, records: Registry, name: string)
    requires Matches(peers, records) && Distinct(records) && name in records
    ensures Matches(peers - {records[name].request.key}, records - {name})
  {
  }

  lemma SoleRemove(peers: map<Key, seq<Network>>, records: Registry, name: string, key: Key)
    requires Sole(peers, records)
    ensures Sole(peers - {key}, records - {name})
  {
  }

  lemma DistinctRemove(records: Registry, name: string)
    requires Distinct(records)
    ensures Distinct(records - {name})
  {
  }

  /** Where an addition stands when it reaches the transaction. */
  ghost predicate Cleared(setup: Setup, s: Stores, r: Request, a: Address) {
    && ValidRequest(r) && Peers(setup.notation, s.config).Some?
    && r.hostname !in Records(s.registry) && r.key !in Peers(setup.notation, s.config).value && r.key !in s.live
    && !Duplicate(Records(s.registry), r)
    && InterfaceHosts(setup.notation, s.config).Some?
    && setup.start <= a <= setup.end
    && !Taken(Peers(setup.notation, s.config).value, s.live, Records(s.registry),
              InterfaceHosts(setup.notation, s.config).value, a)
  }

  ghost function AddAt(setup: Setup, s: Stores, r: Request, a: Address, serverKey: Key, fault: Fault): (Stores, Outcome) {
    Transaction(s, Added(setup.notation, s.config, r.hostname, r.key, a),
                Records(s.registry)[r.hostname := Registration(r, a, setup.endpoint, serverKey)], r.key, Some(a), fault)
  }

  /** An addition is refused, or is a transaction for a cleared address. */
  lemma AddIsTransaction(setup: Setup, s: Stores, r: Request, requested: Option<Address>, serverKey: Option<Key>,
                         fault: Fault) returns (a: Option<Address>)
    ensures var (after, reply) := Add(setup, s, r, requested, serverKey, fault);
            && (a.None? ==> after == s && reply == Refused)
            && (a.Some? ==> && Cleared(setup, s, r, a.value) && serverKey.Some?
                            && after == AddAt(setup, s, r, a.value, serverKey.value, fault).0
                            && reply == (if AddAt(setup, s, r, a.value, serverKey.value, fault).1 == Done
                                         then Registered(Registration(r, a.value, setup.endpoint, serverKey.value))
                                         else Failed(AddAt(setup, s, r, a.value, serverKey.value, fault).1)))
  {
    var file := Peers(setup.notation, s.config);
    var hosts := InterfaceHosts(setup.notation, s.config);
    var records := Records(s.registry);
    hide Transaction, Peers, InterfaceHosts, Taken, ValidRequest, SaveConfig, Duplicate, Added, ValidEndpoint;
    if file.Some? && hosts.Some? {
      AllocatedFree(setup, file.value, s.live, records, hosts.value, requested);
    }
    if || !ValidRequest(r) || SaveConfig(s.config) || file.None? || r.hostname in records || r.key in file.value
       || r.key in s.live || Duplicate(records, r) || hosts.None? || serverKey.None?
       || !ValidEndpoint(setup.endpoint)
    {
      a := None;
    } else {
      a := Allocate(setup, file.value, s.live, records, hosts.value, requested);
    }
  }

  lemma ClearedPrepared(setup: Setup, s: Stores, r: Request, a: Address)
    requires Cleared(setup, s, r, a)
    ensures Prepared(s.live, r.key, Some(a))
  {
    FreeAddress(Peers(setup.notation, s.config).value, s.live, Records(s.registry),
                InterfaceHosts(setup.notation, s.config).value, a);
    hide Peers, Taken, Duplicate, InterfaceHosts;
    assert Covers(Host(a), a);
  }

  /** Adding a peer keeps the stores in agreement, at whatever step it fails, as long as compensation works. */
  lemma AddKeeps(setup: Setup, s: Stores, r: Request, requested: Option<Address>, serverKey: Option<Key>, fault: Fault)
    requires Agreed(setup, s) && Sound(setup.notation)
    ensures var (after, reply) := Add(setup, s, r, requested, serverKey, fault);
            reply != Failed(Broken) ==> Agreed(setup, after)
  {
    var a := AddIsTransaction(setup, s, r, requested, serverKey, fault);
    if a.Some? {
      AddAtKeeps(setup, s, r, a.value, serverKey.value, fault);
    }
  }

  lemma AddAtKeeps(setup: Setup, s: Stores, r: Request, a: Address, serverKey: Key, fault: Fault)
    requires Agreed(setup, s) && Sound(setup.notation) && Cleared(setup, s, r, a)
    ensures var (after, outcome) := AddAt(setup, s, r, a, serverKey, fault);
            outcome != Broken ==> Agreed(setup, after)
  {
    var file := Peers(setup.notation, s.config).value;
    var records := Records(s.registry);
    var registration := Registration(r, a, setup.endpoint, serverKey);
    var records' := records[r.hostname := registration];
    ClearedPrepared(setup, s, r, a);
    AllOrNothing(s, Added(setup.notation, s.config, r.hostname, r.key, a), records', r.key, Some(a), fault);
    PeersAdded(setup.notation, s.config, r.hostname, r.key, a);
    FreeAddress(file, s.live, records, InterfaceHosts(setup.notation, s.config).value, a);
    hide Peers, Taken, Transaction, Duplicate, Sound, Matches, Sole, Distinct, InterfaceHosts, ValidRequest, Added;
    MatchesAdd(file, records, r.hostname, registration);
    MatchesAdd(s.live, records, r.hostname, registration);
    SoleAdd(file, records, r.hostname, registration);
    SoleAdd(s.live, records, r.hostname, registration);
    DistinctAdd(records, registration);
    ExclusiveAdd(s.live, r.key, a);
  }

  lemma ExclusiveAdd(live: map<Key, seq<Network>>, key: Key, a: Address)
    requires Exclusive(live) && Prepared(live, key, Some(a))
    ensures Exclusive(live[key := [Host(a)]])
  {
  }

  /** So does removing one. */
  lemma RemoveKeeps(setup: Setup, s: Stores, name: string, fault: Fault)
    requires Agreed(setup, s)
    ensures var (after, reply) := Remove(setup, s, name, fault);
            reply != Failed(Broken) ==> Agreed(setup, after)
  {
    var file := Peers(setup.notation, s.config).value;
    var records := Records(s.registry);
    if name in records {
      var key := records[name].request.key;
      AllOrNothing(s, Removed(s.config, key), records - {name}, key, None, fault);
      PeersRemoved(setup.notation, s.config, key);
      hide Peers, Transaction, Matches, Sole, Distinct, Removed, SaveConfig, ValidName;
      MatchesRemove(file, records, name);
      MatchesRemove(s.live, records, name);
      SoleRemove(file, records, name, key);
      SoleRemove(s.live, records, name, key);
      DistinctRemove(records, name);
    }
  }
}
