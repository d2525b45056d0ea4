/** Whole runs of additions and removals with failures. */
module PeerRuns {
  import opened Prelude
  import opened ConfigText
  import opened PeerConfig
  import opened PeerEdits
  import opened PeerServerSpec
  import opened PeerAgreement

  datatype Operation =
    | Adding(request: Request, requested: Option<Address>, serverKey: Option<Key>, fault: Fault)
    | Removing(name: string, fault: Fault)

  ghost function Perform(setup: Setup, s: Stores, op: Operation): (Stores, Reply) {
    match op
    case Adding(r, requested, serverKey, fault) => Add(setup, s, r, requested, serverKey, fault)
    case Removing(name, fault) => Remove(setup, s, name, fault)
  }

  ghost function StoresAt(setup: Setup, s: Stores, run: seq<Operation>, n: nat): Stores
    requires n <= |run|
  {
    if n == 0 then s else Perform(setup, StoresAt(setup, s, run, n - 1), run[n - 1]).0
  }

  /** As long as no compensation fails, the stores agree after every operation. */
  lemma {:induction false} ReachableAgreed(setup: Setup, s: Stores, run: seq<Operation>, n: nat)
    requires Sound(setup.notation) && Agreed(setup, s) && n <= |run|
    requires forall k | 0 <= k < n :: Perform(setup, StoresAt(setup, s, run, k), run[k]).1 != Failed(Broken)
    ensures Agreed(setup, StoresAt(setup, s, run, n))
  {
    hide Agreed, Add, Remove, Sound;
    if n > 0 {
      ReachableAgreed(setup, s, run, n - 1);
      var last := StoresAt(setup, s, run, n - 1);
      match run[n - 1]
      case Adding(r, requested, serverKey, fault) => AddKeeps(setup, last, r, requested, serverKey, fault);
      case Removing(name, fault) => RemoveKeeps(setup, last, name, fault);
    }
  }

  // ---------------------------------------------------------------- peers the tool does not manage

  predicate SamePeer(k: Key, p: map<Key, seq<Network>>, q: map<Key, seq<Network>>) {
    (k in p <==> k in q) && (k in p ==> p[k] == q[k])
  }

  predicate Unmanaged(k: Key, registry: Option<Registry>) {
    forall name | name in Records(registry) :: Records(registry)[name].request.key != k
  }

  predicate Readable(setup: Setup, s: Stores) {
    Peers(setup.notation, s.config).Some? && Exclusive(s.live)
  }

  /** `k` is a peer of somebody else, in the file or in the kernel. */
  predicate Foreign(setup: Setup, s: Stores, k: Key) {
    && Readable(setup, s) && Unmanaged(k, s.registry)
    && (k in Peers(setup.notation, s.config).value || k in s.live)
  }

  predicate Left(setup: Setup, s: Stores, after: Stores, k: Key)
    requires Readable(setup, s)
  {
    && Readable(setup, after) && Unmanaged(k, after.registry)
    && SamePeer(k, Peers(setup.notation, s.config).value, Peers(setup.notation, after.config).value)
    && SamePeer(k, s.live, after.live)
  }

  /** Whatever mixture of old and done contents is left behind, `k` is not touched if neither content touches it. */
  lemma MixtureLeaves(setup: Setup, s: Stores, done: Stores, after: Stores, k: Key)
    requires Foreign(setup, s, k) && Left(setup, s, done, k)
    requires after.config in {s.config, done.config} && after.registry in {s.registry, done.registry}
    requires after.live in {s.live, done.live}
    ensures Left(setup, s, after, k)
  {
    hide Peers, Unmanaged, Exclusive;
  }

  /** The stores `add` aims at. */
  function Wanted(setup: Setup, s: Stores, r: Request, a: Address, serverKey: Key): Stores {
    Stores(Added(setup.notation, s.config, r.hostname, r.key, a),
           Some(Records(s.registry)[r.hostname := Registration(r, a, setup.endpoint, serverKey)]),
           s.live[r.key := [Host(a)]])
  }

  lemma UnmanagedAdd(k: Key, registry: Option<Registry>, registration: Registration)
    requires Unmanaged(k, registry) && registration.request.key != k
    ensures Unmanaged(k, Some(Records(registry)[registration.request.hostname := registration]))
  {
  }

  lemma ClearedFacts(setup: Setup, s: Stores, r: Request, a: Address)
    requires Cleared(setup, s, r, a)
    ensures Peers(setup.notation, s.config).Some? && r.key !in Peers(setup.notation, s.config).value
    ensures r.key !in s.live && r.hostname !in Records(s.registry)
  {
  }

  lemma OtherPeer(setup: Setup, s: Stores, after: Stores, k: Key, key: Key, nets: seq<Network>)
    requires Foreign(setup, s, k) && Readable(setup, after) && Unmanaged(k, after.registry)
    requires key !in Peers(setup.notation, s.config).value && key !in s.live
    requires Peers(setup.notation, after.config).value == Peers(setup.notation, s.config).value[key := nets]
    requires after.live == s.live[key := nets]
    ensures Left(setup, s, after, k)
  {
    hide Peers, Exclusive, Unmanaged;
  }

  lemma WantedLeaves(setup: Setup, s: Stores, r: Request, a: Address, serverKey: Key, k: Key)
    requires Sound(setup.notation) && Foreign(setup, s, k) && Cleared(setup, s, r, a)
    ensures Left(setup, s, Wanted(setup, s, r, a, serverKey), k)
  {
    var after := Wanted(setup, s, r, a, serverKey);
    ClearedFacts(setup, s, r, a);
    assert Readable(setup, after) && Unmanaged(k, after.registry) by {
      ClearedPrepared(setup, s, r, a);
      PeersAdded(setup.notation, s.config, r.hostname, r.key, a);
      ExclusiveAdd(s.live, r.key, a);
      UnmanagedAdd(k, s.registry, Registration(r, a, setup.endpoint, serverKey));
      hide Peers, Added, Exclusive, Taken, Duplicate, ValidRequest, InterfaceHosts, Sound, Unmanaged, Prepared;
    }
    assert Peers(setup.notation, after.config) == Some(Peers(setup.notation, s.config).value[r.key := [Host(a)]]) by {
      PeersAdded(setup.notation, s.config, r.hostname, r.key, a);
    }
    hide Peers, Exclusive, Unmanaged, Foreign, Left, Cleared, Sound;
    OtherPeer(setup, s, after, k, r.key, [Host(a)]);
  }

  lemma AddAtLeaves(setup: Setup, s: Stores, r: Request, a: Address, serverKey: Key, fault: Fault, k: Key)
    requires Sound(setup.notation) && Foreign(setup, s, k) && Cleared(setup, s, r, a)
    ensures Left(setup, s, AddAt(setup, s, r, a, serverKey, fault).0, k)
  {
    ClearedPrepared(setup, s, r, a);
    hide Peers, Transaction, Added, Exclusive, Taken, Duplicate, ValidRequest, InterfaceHosts, Sound, Prepared, Foreign,
         Left, Cleared;
    var done := Wanted(setup, s, r, a, serverKey);
    assert Exclusive(s.live) by {
      ForeignExclusive(setup, s, k);
    }
    Halfway(s, done.config, done.registry.value, r.key, Some(a), fault);
    WantedLeaves(setup, s, r, a, serverKey, k);
    MixtureLeaves(setup, s, done, AddAt(setup, s, r, a, serverKey, fault).0, k);
  }

  lemma ForeignExclusive(setup: Setup, s: Stores, k: Key)
    requires Foreign(setup, s, k)
    ensures Exclusive(s.live) && Readable(setup, s)
  {
    hide Exclusive, Peers;
  }

  lemma AddLeaves(setup: Setup, s: Stores, r: Request, requested: Option<Address>, serverKey: Option<Key>, fault: Fault,
                  k: Key)
    requires Sound(setup.notation) && Foreign(setup, s, k)
    ensures Left(setup, s, Add(setup, s, r, requested, serverKey, fault).0, k)
  {
    var a := AddIsTransaction(setup, s, r, requested, serverKey, fault);
    if a.Some? {
      AddAtLeaves(setup, s, r, a.value, serverKey.value, fault, k);
    }
  }

  lemma ExclusiveRemove(live: map<Key, seq<Network>>, key: Key)
    requires Exclusive(live)
    ensures Exclusive(live - {key})
  {
  }

  lemma RemoveLeaves(setup: Setup, s: Stores, name: string, fault: Fault, k: Key)
    requires Foreign(setup, s, k)
    ensures Left(setup, s, Remove(setup, s, name, fault).0, k)
  {
    var records := Records(s.registry);
    if name in records {
      var key := records[name].request.key;
      hide Peers, Transaction, Removed, Exclusive, SaveConfig, ValidName;
      Halfway(s, Removed(s.config, key), records - {name}, key, None, fault);
      PeersRemoved(setup.notation, s.config, key);
      ExclusiveRemove(s.live, key);
      MixtureLeaves(setup, s, Stores(Removed(s.config, key), Some(records - {name}), s.live - {key}),
                    Transaction(s, Removed(s.config, key), records - {name}, key, None, fault).0, k);
    }
  }

  /** Peers that this tool did not register never change, whatever is added, removed or goes wrong, a failing
      compensation included. */
  lemma {:induction false} UnmanagedStays(setup: Setup, s: Stores, run: seq<Operation>, n: nat, k: Key)
    requires Sound(setup.notation) && Foreign(setup, s, k) && n <= |run|
    ensures Left(setup, s, StoresAt(setup, s, run, n), k)
  {
    hide Add, Remove, Sound, Peers, Unmanaged, Exclusive;
    if n > 0 {
      UnmanagedStays(setup, s, run, n - 1, k);
      var last := StoresAt(setup, s, run, n - 1);
      match run[n - 1]
      case Adding(r, requested, serverKey, fault) => AddLeaves(setup, last, r, requested, serverKey, fault, k);
      case Removing(name, fault) => RemoveLeaves(setup, last, name, fault, k);
    }
  }

  // ---------------------------------------------------------------- records

  /** The registry holds its old or its new records, whatever fails; without a broken compensation one knows which. */
  lemma RegistryMixture(before: Stores, config: string, records: Registry, key: Key, address: Option<Address>, fault: Fault)
    ensures var (after, outcome) := Transaction(before, config, records, key, address, fault);
            && after.registry in {before.registry, Some(records)}
            && (outcome == Done ==> after.registry == Some(records))
            && (outcome in {Untouched, Restored} ==> after.registry == before.registry)
  {
    hide Apply, Give;
  }

  predicate Holds(registry: Option<Registry>, name: string, registration: Registration) {
    name in Records(registry) && Records(registry)[name] == registration
  }

  /** The operation removes the record `name`, or breaks off in the middle of that. */
  ghost predicate Removes(setup: Setup, s: Stores, op: Operation, name: string) {
    op.Removing? && op.name == name && Perform(setup, s, op).1 in {Deleted, Failed(Broken)}
  }

  lemma AddHolds(setup: Setup, s: Stores, r: Request, requested: Option<Address>, serverKey: Option<Key>, fault: Fault,
                 name: string, registration: Registration)
    requires Holds(s.registry, name, registration)
    ensures Holds(Add(setup, s, r, requested, serverKey, fault).0.registry, name, registration)
  {
    var a := AddIsTransaction(setup, s, r, requested, serverKey, fault);
    if a.Some? {
      ClearedFacts(setup, s, r, a.value);
      var done := Wanted(setup, s, r, a.value, serverKey.value);
      RegistryMixture(s, done.config, done.registry.value, r.key, Some(a.value), fault);
    }
    hide Add, Cleared, Transaction, Added;
  }

  /** No operation but the removal of its name changes a record, whatever fails. */
  lemma RecordStays(setup: Setup, s: Stores, op: Operation, name: string, registration: Registration)
    requires Holds(s.registry, name, registration) && !Removes(setup, s, op, name)
    ensures Holds(Perform(setup, s, op).0.registry, name, registration)
  {
    match op
    case Adding(r, requested, serverKey, fault) =>
      hide Remove;
      AddHolds(setup, s, r, requested, serverKey, fault, name, registration);
    case Removing(other, fault) =>
      var records := Records(s.registry);
      if other in records {
        var key := records[other].request.key;
        RegistryMixture(s, Removed(s.config, key), records - {other}, key, None, fault);
      }
      hide Add, Peers, Transaction, Removed, SaveConfig, ValidName;
  }

  // ---------------------------------------------------------------- who owns which address

  /** Peer `k` announces `net`, and `net` covers `x`. */
  predicate Carries(peers: map<Key, seq<Network>>, k: Key, net: Network, x: Address) {
    k in peers && net in peers[k] && Covers(net, x)
  }

  lemma AddAtResult(setup: Setup, s: Stores, r: Request, a: Address, serverKey: Key, fault: Fault)
    requires Sound(setup.notation) && Agreed(setup, s) && Cleared(setup, s, r, a)
    requires AddAt(setup, s, r, a, serverKey, fault).1 == Done
    ensures var after := AddAt(setup, s, r, a, serverKey, fault).0;
            && after == Wanted(setup, s, r, a, serverKey)
            && Peers(setup.notation, after.config) == Some(Peers(setup.notation, s.config).value[r.key := [Host(a)]])
  {
    var done := Wanted(setup, s, r, a, serverKey);
    ClearedPrepared(setup, s, r, a);
    AllOrNothing(s, done.config, done.registry.value, r.key, Some(a), fault);
    PeersAdded(setup.notation, s.config, r.hostname, r.key, a);
  }

  lemma AddNotRefused(setup: Setup, s: Stores, r: Request, requested: Option<Address>, serverKey: Option<Key>, fault: Fault)
    requires Add(setup, s, r, requested, serverKey, fault).1.Registered?
    ensures !SaveConfig(s.config)
  {
    hide Peers, Transaction, Added, Allocate, Duplicate, InterfaceHosts, ValidRequest, Values;
  }

  /** What a registered addition leaves behind. */
  lemma AddDone(setup: Setup, s: Stores, r: Request, requested: Option<Address>, serverKey: Option<Key>, fault: Fault)
    returns (a: Address)
    requires Sound(setup.notation) && Agreed(setup, s)
    requires Add(setup, s, r, requested, serverKey, fault).1.Registered?
    ensures Cleared(setup, s, r, a) && serverKey.Some? && !SaveConfig(s.config)
    ensures var (after, reply) := Add(setup, s, r, requested, serverKey, fault);
            && reply == Registered(Registration(r, a, setup.endpoint, serverKey.value))
            && after == Wanted(setup, s, r, a, serverKey.value)
            && Peers(setup.notation, after.config) == Some(Peers(setup.notation, s.config).value[r.key := [Host(a)]])
            && Exclusive(after.live)
  {
    AddNotRefused(setup, s, r, requested, serverKey, fault);
    var some := AddIsTransaction(setup, s, r, requested, serverKey, fault);
    a := some.value;
    ClearedPrepared(setup, s, r, a);
    ExclusiveAdd(s.live, r.key, a);
    hide Add, Cleared, AddAt, Exclusive, Sound, Peers, SaveConfig, Consistent, Prepared;
    AddAtResult(setup, s, r, a, serverKey.value, fault);
  }

  /** An addition gives the new peer one address that nobody carried, and changes nothing about any other address:
      routing by longest prefix is the same everywhere else. */
  lemma AddRoutes(setup: Setup, s: Stores, r: Request, requested: Option<Address>, serverKey: Option<Key>, fault: Fault,
                  k: Key, net: Network, x: Address)
    requires Sound(setup.notation) && Agreed(setup, s)
    requires Add(setup, s, r, requested, serverKey, fault).1.Registered?
    ensures var (after, reply) := Add(setup, s, r, requested, serverKey, fault);
            var a := reply.registration.address;
            && setup.start <= a <= setup.end
            && !Carries(Peers(setup.notation, s.config).value, k, net, a) && !Carries(s.live, k, net, a)
            && Peers(setup.notation, after.config).Some?
            && (Carries(Peers(setup.notation, after.config).value, k, net, x)
                <==> Carries(Peers(setup.notation, s.config).value, k, net, x) || (k == r.key && net == Host(a) && x == a))
            && (Carries(after.live, k, net, x)
                <==> Carries(s.live, k, net, x) || (k == r.key && net == Host(a) && x == a))
  {
    var a := AddDone(setup, s, r, requested, serverKey, fault);
    var file := Peers(setup.notation, s.config).value;
    FreeAddress(file, s.live, Records(s.registry), InterfaceHosts(setup.notation, s.config).value, a);
    hide Peers, Added, Add, Agreed, Taken, Duplicate, ValidRequest, InterfaceHosts, Sound, SaveConfig;
  }

  // ---------------------------------------------------------------- removing what was added

  function Onto(c: char, ls: seq<string>): seq<string>
    requires |ls| > 0
  {
    if Break(c) then [""] + ls else [[c] + ls[0]] + ls[1..]
  }

  lemma OntoCat(c: char, la: seq<string>, lb: seq<string>)
    requires |la| > 0
    ensures Onto(c, la + lb) == Onto(c, la) + lb
  {
    assert (la + lb)[1..] == la[1..] + lb;
  }

  lemma {:induction false} LinesCat(a: string, b: string)
    ensures Lines(Line(a, b)) == Lines(a) + Lines(b)
  {
    if a == "" {
      assert Line(a, b)[0] == '\n' && Line(a, b)[1..] == b;
    } else {
      assert Line(a, b)[0] == a[0] && Line(a, b)[1..] == Line(a[1..], b);
      LinesCat(a[1..], b);
      OntoCat(a[0], Lines(a[1..]), Lines(b));
      hide Line, Break;
      assert Lines(a) == Onto(a[0], Lines(a[1..]));
    }
  }

  lemma FieldsCat(a: string, b: string)
    ensures Fields(Line(a, b)) == Fields(a) + Fields(b)
  {
    LinesCat(a, b);
    hide Lines, FieldOf;
    ReadLinesCat(Lines(a), Lines(b));
  }

  lemma {:induction false} SelectCat(a: seq<Field>, b: seq<Field>, key: string)
    ensures Select(a + b, key) == Select(a, key) + Select(b, key)
  {
    if a == [] {
      assert a + b == b;
    } else {
      assert (a + b)[1..] == a[1..] + b;
      SelectCat(a[1..], b, key);
    }
  }

  /** The appended block brings no setting of the interface. */
  lemma AddedSettings(n: Notation, before: string, name: string, key: Key, a: Address, setting: string)
    requires Sound(n) && ValidName(name) && ValidKey(key) && setting != "publickey" && setting != "allowedips"
    ensures Values(Added(n, before, name, key, a), setting) == Values(before, setting)
  {
    var x := TrimRight(before);
    var entry := Entry(n, name, key, a);
    AddedText(n, before, name, key, a);
    SectionFields(before);
    EntryFields(n, name, key, a);
    EmptyNoFields();
    hide Fields, Entry, TrimRight, Added, Line;
    FieldsCat("", entry);
    FieldsCat(x, Line("", entry));
    assert Fields(Line("", entry)) == Fields(entry);
    SelectCat(Fields(x), Fields(entry), setting);
    SelectPair(Field("publickey", key), Field("allowedips", Cidr(n, a)), setting);
  }

  lemma AddedText(n: Notation, before: string, name: string, key: Key, a: Address)
    ensures Added(n, before, name, key, a) == Line(TrimRight(before), Line("", Entry(n, name, key, a)))
  {
    hide Entry, TrimRight;
    var x, entry := TrimRight(before), Entry(n, name, key, a);
    assert x + "\n\n" + entry == x + "\n" + ("" + "\n" + entry);
  }

  /** A registered peer as it stands in all three stores. */
  predicate Removable(setup: Setup, s: Stores, name: string) {
    && ValidName(name) && !SaveConfig(s.config) && name in Records(s.registry)
    && Peers(setup.notation, s.config).Some?
    && SamePeer(Records(s.registry)[name].request.key, Peers(setup.notation, s.config).value,
                map[Records(s.registry)[name].request.key := [Host(Records(s.registry)[name].address)]])
    && (Records(s.registry)[name].request.key in s.live
        ==> s.live[Records(s.registry)[name].request.key] == [Host(Records(s.registry)[name].address)])
  }

  const NONE := Fault(false, false, false, Works, false, false, false)

  /** Without a failure a removable peer disappears from all three stores, and nothing else does. */
  lemma RemoveWorks(setup: Setup, s: Stores, name: string)
    requires Removable(setup, s, name) && Exclusive(s.live)
    ensures var (after, reply) := Remove(setup, s, name, NONE);
            var key := Records(s.registry)[name].request.key;
            && reply == Deleted
            && Peers(setup.notation, after.config) == Some(Peers(setup.notation, s.config).value - {key})
            && Records(after.registry) == Records(s.registry) - {name}
            && after.live == s.live - {key}
  {
    var records := Records(s.registry);
    var key := records[name].request.key;
    AllOrNothing(s, Removed(s.config, key), records - {name}, key, None, NONE);
    PeersRemoved(setup.notation, s.config, key);
    hide Peers, Transaction, Removed, Exclusive, SaveConfig, ValidName;
  }

  lemma AddRemovable(setup: Setup, s: Stores, r: Request, a: Address, serverKey: Key)
    requires Sound(setup.notation) && Cleared(setup, s, r, a) && !SaveConfig(s.config)
    ensures Removable(setup, Wanted(setup, s, r, a, serverKey), r.hostname)
  {
    ClearedNames(setup, s, r, a);
    ClearedFacts(setup, s, r, a);
    assert SaveConfig(Wanted(setup, s, r, a, serverKey).config) == SaveConfig(s.config) by {
      AddedSaving(setup.notation, s.config, r.hostname, r.key, a);
    }
    assert Peers(setup.notation, Wanted(setup, s, r, a, serverKey).config)
        == Some(Peers(setup.notation, s.config).value[r.key := [Host(a)]]) by {
      PeersAdded(setup.notation, s.config, r.hostname, r.key, a);
    }
    hide Peers, Added, Cleared, Sound, SaveConfig, ValidKey, ValidName;
  }

  lemma AddedSaving(n: Notation, config: string, name: string, key: Key, a: Address)
    requires Sound(n) && ValidName(name) && ValidKey(key)
    ensures SaveConfig(Added(n, config, name, key, a)) == SaveConfig(config)
  {
    hide Added, Sound, Values, Lower, ValidKey, ValidName;
    AddedSettings(n, config, name, key, a, "saveconfig") by {
      assert "saveconfig"[0] != "publickey"[0] && "saveconfig"[0] != "allowedips"[0];
    }
  }

  lemma ClearedNames(setup: Setup, s: Stores, r: Request, a: Address)
    requires Cleared(setup, s, r, a)
    ensures ValidName(r.hostname) && ValidKey(r.key)
  {
    hide ValidName, ValidKey, Peers, Taken, Duplicate, InterfaceHosts;
  }

  lemma WantedBack(setup: Setup, s: Stores, r: Request, a: Address, serverKey: Key)
    requires Peers(setup.notation, s.config).Some? && r.key !in Peers(setup.notation, s.config).value
    requires r.key !in s.live && r.hostname !in Records(s.registry)
    ensures var added := Wanted(setup, s, r, a, serverKey);
            && Peers(setup.notation, s.config).value[r.key := [Host(a)]] - {r.key}
               == Peers(setup.notation, s.config).value
            && added.live - {r.key} == s.live
            && Records(added.registry) - {r.hostname} == Records(s.registry)
            && Records(added.registry)[r.hostname].request.key == r.key
  {
    hide Peers, Added;
  }

  /** What was added can be removed again, and then the peers of file and kernel and the registry are what they were. */
  lemma AddThenRemove(setup: Setup, s: Stores, r: Request, requested: Option<Address>, serverKey: Option<Key>,
                      fault: Fault)
    requires Sound(setup.notation) && Agreed(setup, s)
    requires Add(setup, s, r, requested, serverKey, fault).1.Registered?
    ensures var added := Add(setup, s, r, requested, serverKey, fault).0;
            var (after, reply) := Remove(setup, added, r.hostname, NONE);
            && reply == Deleted
            && Peers(setup.notation, after.config) == Peers(setup.notation, s.config)
            && Records(after.registry) == Records(s.registry)
            && after.live == s.live
  {
    hide *;
    var a := AddDone(setup, s, r, requested, serverKey, fault);
    AddRemovable(setup, s, r, a, serverKey.value);
    ClearedFacts(setup, s, r, a);
    WantedBack(setup, s, r, a, serverKey.value);
    RemoveWorks(setup, Wanted(setup, s, r, a, serverKey.value), r.hostname);
  }
}
