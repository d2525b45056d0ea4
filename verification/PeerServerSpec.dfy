/** The three stores of scripts/kdx-wg-server.py (configuration text, JSON registry, kernel table) and the operations
    on them, with a failure possible at every step. */
module PeerServerSpec {
  import opened Prelude
  import opened ConfigText
  import opened PeerConfig
  import opened PeerEdits

  // ---------------------------------------------------------------- requests

  datatype Request = Request(device: string, hostname: string, key: Key, id: string)

  datatype Registration = Registration(request: Request, address: Address, endpoint: string, serverKey: Key)

  type Registry = map<string, Registration>

  predicate LowerHex(c: char) {
    '0' <= c <= '9' || 'a' <= c <= 'f'
  }

  predicate ValidDevice(device: string) {
    && |device| == 16 && (forall i | 0 <= i < 16 :: LowerHex(device[i]))
    && exists i | 0 <= i < 16 :: device[i] != '0'
  }

  /** The canonical text of a UUID. */
  predicate ValidId(id: string) {
    |id| == 36 && forall i | 0 <= i < 36 :: if i in {8, 13, 18, 23} then id[i] == '-' else LowerHex(id[i])
  }

  /** A host name or address, a colon, and a port between 1 and 65535. */
  predicate ValidEndpoint(endpoint: string) {
    var host := Before(endpoint, ':');
    && 1 <= |host| <= 253 && host[0] !in ".-"
    && (forall i | 0 <= i < |host| :: 'A' <= host[i] <= 'Z' || 'a' <= host[i] <= 'z' || IsDigit(host[i]) || host[i] in ".-")
    && |host| + 1 < |endpoint| <= |host| + 6
    && (forall i | |host| < i < |endpoint| :: IsDigit(endpoint[i]))
    && 1 <= Number(endpoint[|host| + 1..]) <= 65535
  }

  predicate ValidRequest(r: Request) {
    ValidName(r.hostname) && ValidKey(r.key) && ValidDevice(r.device) && ValidId(r.id)
  }

  // ---------------------------------------------------------------- stores

  /** The pool of addresses and the endpoint the server was started with; both ends of the pool lie in the network. */
  datatype Setup = Setup(notation: Notation, start: Address, end: Address, endpoint: string)

  datatype Stores = Stores(config: string, registry: Option<Registry>, live: map<Key, seq<Network>>)

  function Records(registry: Option<Registry>): Registry {
    if registry.Some? then registry.value else map[]
  }

  predicate SaveConfig(text: string) {
    exists v :: v in Values(text, "saveconfig") && Lower(v) == "true"
  }

  /** Every configured interface address as a network of one; `None` if one of them cannot be read. */
  function Hosts(n: Notation, items: seq<string>): Option<seq<Network>> {
    if items == [] then Some([])
    else
      var first := n.host(Strip(items[0]));
      var rest := Hosts(n, items[1..]);
      if first.Some? && rest.Some? then Some([first.value] + rest.value) else None
  }

  function InterfaceHosts(n: Notation, text: string): Option<seq<Network>> {
    Hosts(n, Items(Values(text, "address")))
  }

  // ---------------------------------------------------------------- allocation

  predicate Listed(peers: map<Key, seq<Network>>, net: Network) {
    exists k :: k in peers && net in peers[k]
  }

  /** Networks that are taken: file peers, live peers, registered addresses, interface addresses. */
  predicate Used(file: map<Key, seq<Network>>, live: map<Key, seq<Network>>, records: Registry, hosts: seq<Network>,
                 net: Network)
  {
    || Listed(file, net) || Listed(live, net) || net in hosts
    || (exists name :: name in records && Host(records[name].address) == net)
  }

  ghost predicate Taken(file: map<Key, seq<Network>>, live: map<Key, seq<Network>>, records: Registry,
                        hosts: seq<Network>, a: Address)
  {
    exists net: Network :: Used(file, live, records, hosts, net) && Covers(net, a)
  }

  /** The first address from `a` on that nothing covers. */
  ghost function FirstFree(file: map<Key, seq<Network>>, live: map<Key, seq<Network>>, records: Registry,
                           hosts: seq<Network>, a: Address, end: Address): Option<Address>
    decreases end - a
  {
    if a > end then None
    else if !Taken(file, live, records, hosts, a) then Some(a)
    else FirstFree(file, live, records, hosts, a + 1, end)
  }

  ghost function Allocate(setup: Setup, file: map<Key, seq<Network>>, live: map<Key, seq<Network>>, records: Registry,
                          hosts: seq<Network>, requested: Option<Address>): Option<Address>
  {
    if requested.None? then FirstFree(file, live, records, hosts, setup.start, setup.end)
    else if setup.start <= requested.value <= setup.end && !Taken(file, live, records, hosts, requested.value)
    then requested
    else None
  }

  // ---------------------------------------------------------------- the kernel table

  function Drop(nets: seq<Network>, gone: seq<Network>): seq<Network> {
    if nets == [] then []
    else (if nets[0] in gone then [] else [nets[0]]) + Drop(nets[1..], gone)
  }

  /** Giving networks to a peer; WireGuard takes them away from whoever had them. */
  function Give(live: map<Key, seq<Network>>, key: Key, nets: seq<Network>): (r: map<Key, seq<Network>>)
    ensures r.Keys == live.Keys + {key}
  {
    map k | k in live.Keys + {key} :: if k == key then nets else Drop(live[k], nets)
  }

  /** `wg set`: give the new address or remove the peer. */
  function Apply(live: map<Key, seq<Network>>, key: Key, address: Option<Address>): map<Key, seq<Network>> {
    if address.Some? then Give(live, key, [Host(address.value)]) else live - {key}
  }

  // ---------------------------------------------------------------- the transaction

  /** A failing `wg set` may still have taken effect. */
  datatype LiveFault = Works | Fails(applied: bool)

  /** What goes wrong during a transaction and during its compensation. */
  datatype Fault = Fault(prepare: bool, config: bool, registry: bool, live: LiveFault,
                         restoreConfig: bool, restoreRegistry: bool, restoreLive: bool)

  /** `Broken`: the compensation failed too and an operator has to recover from the backup. */
  datatype Outcome = Done | Untouched | Restored | Broken

  /** The handler of `transaction`: `now` is where things stood when a step failed. */
  function Compensate(before: Stores, now: Stores, key: Key, changedLive: bool, fault: Fault): (Stores, Outcome) {
    if fault.restoreConfig then (now, Broken)
    else
      var first := now.(config := before.config);
      if fault.restoreRegistry then (first, Broken)
      else
        var second := first.(registry := before.registry);
        if !changedLive then (second, Restored)
        else if fault.restoreLive then (second, Broken)
        else
          (second.(live := if key in before.live then Give(now.live, key, before.live[key]) else now.live - {key}),
           Restored)
  }

  function Transaction(before: Stores, config: string, records: Registry, key: Key, address: Option<Address>,
                       fault: Fault): (Stores, Outcome)
  {
    if fault.prepare then (before, Untouched)
    else if fault.config then Compensate(before, before, key, false, fault)
    else
      var first := before.(config := config);
      if fault.registry then Compensate(before, first, key, false, fault)
      else
        var second := first.(registry := Some(records));
        var third := second.(live := Apply(before.live, key, address));
        match fault.live
        case Works => (third, Done)
        case Fails(applied) => Compensate(before, if applied then third else second, key, true, fault)
  }

  // ---------------------------------------------------------------- add and remove

  datatype Reply = Registered(registration: Registration) | Deleted | Refused | Failed(outcome: Outcome)

  predicate Duplicate(records: Registry, r: Request) {
    exists name :: name in records && (records[name].request.key == r.key || records[name].request.device == r.device
                                       || records[name].request.id == r.id)
  }

  /** `serverKey` is the server's public key as the kernel reports it, `None` when that fails or gives no key. */
  ghost function Add(setup: Setup, s: Stores, r: Request, requested: Option<Address>, serverKey: Option<Key>,
                     fault: Fault): (Stores, Reply)
  {
    var file := Peers(setup.notation, s.config);
    var hosts := InterfaceHosts(setup.notation, s.config);
    var records := Records(s.registry);
    if !ValidRequest(r) || SaveConfig(s.config) || file.None? then (s, Refused)
    else if r.hostname in records || r.key in file.value || r.key in s.live || Duplicate(records, r) then (s, Refused)
    else if hosts.None? then (s, Refused)
    else
      var address := Allocate(setup, file.value, s.live, records, hosts.value, requested);
      if address.None? || !ValidEndpoint(setup.endpoint) || serverKey.None? then (s, Refused)
      else
        var registration := Registration(r, address.value, setup.endpoint, serverKey.value);
        var config := Added(setup.notation, s.config, r.hostname, r.key, address.value);
        var done := Transaction(s, config, records[r.hostname := registration], r.key, address, fault);
        (done.0, if done.1 == Done then Registered(registration) else Failed(done.1))
  }

  function Remove(setup: Setup, s: Stores, name: string, fault: Fault): (Stores, Reply) {
    var file := Peers(setup.notation, s.config);
    var records := Records(s.registry);
    if !ValidName(name) || SaveConfig(s.config) || file.None? || name !in records then (s, Refused)
    else
      var key := records[name].request.key;
      var expected := [Host(records[name].address)];
      if key !in file.value || file.value[key] != expected || (key in s.live && s.live[key] != expected)
      then (s, Refused)
      else
        var done := Transaction(s, Removed(s.config, key), records - {name}, key, None, fault);
        (done.0, if done.1 == Done then Deleted else Failed(done.1))
  }
}
