/** The peer registry tool as it runs: dictionaries filled in loops, the search for an address, and the transaction
    that rewrites the three stores one after the other. */
module PeerServer {
  import opened Prelude
  import opened ConfigText
  import opened PeerConfig
  import opened PeerEdits
  import opened PeerServerSpec

  function Get(data: map<string, seq<string>>, key: string): seq<string> {
    if key in data then data[key] else []
  }

  lemma {:induction false} SelectSnoc(fs: seq<Field>, f: Field, key: string)
    ensures Select(fs + [f], key) == Select(fs, key) + if f.key == key then [f.value] else []
  {
    if fs == [] {
      assert fs + [f] == [f];
    } else {
      assert (fs + [f])[1..] == fs[1..] + [f];
      SelectSnoc(fs[1..], f, key);
    }
  }

  lemma {:induction false} ReadLinesSnoc(lines: seq<string>, line: string)
    ensures ReadLines(lines + [line]) == ReadLines(lines) + FieldOf(line)
  {
    hide FieldOf;
    if lines == [] {
      assert lines + [line] == [line];
    } else {
      assert (lines + [line])[1..] == lines[1..] + [line];
      ReadLinesSnoc(lines[1..], line);
      assert FieldOf(lines[0]) + (ReadLines(lines[1..]) + FieldOf(line))
          == FieldOf(lines[0]) + ReadLines(lines[1..]) + FieldOf(line);
    }
  }

  ghost predicate Dictionary(data: map<string, seq<string>>, fs: seq<Field>) {
    forall key :: Get(data, key) == Select(fs, key)
  }

  lemma DictionarySnoc(data: map<string, seq<string>>, fs: seq<Field>, f: Field)
    requires Dictionary(data, fs)
    ensures Dictionary(data[f.key := Get(data, f.key) + [f.value]], fs + [f])
  {
    var data' := data[f.key := Get(data, f.key) + [f.value]];
    forall key
      ensures Get(data', key) == Select(fs + [f], key)
    {
      SelectSnoc(fs, f, key);
      assert Get(data, key) == Select(fs, key);
    }
  }

  /** Every assignment of the block adds its value to the list of its key. */
  method ReadFields(block: string) returns (data: map<string, seq<string>>)
    ensures forall key :: Get(data, key) == Values(block, key)
  {
    hide Dictionary, Select, ReadLine;
    data := map[];
    assert Dictionary(data, ReadLines([])) by {
      NothingRead();
    }
    var lines := Lines(block);
    for i := 0 to |lines|
      invariant Dictionary(data, ReadLines(lines[..i]))
    {
      var field := ReadLine(lines[i]);
      assert lines[..i + 1] == lines[..i] + [lines[i]];
      ReadLinesSnoc(lines[..i], lines[i]);
      if field.Some? {
        DictionarySnoc(data, ReadLines(lines[..i]), field.value);
        data := data[field.value.key := Get(data, field.value.key) + [field.value.value]];
      } else {
        assert ReadLines(lines[..i]) + [] == ReadLines(lines[..i]);
      }
    }
    assert lines[..|lines|] == lines;
    DictionaryValues(data, block);
  }

  lemma NothingRead()
    ensures Dictionary(map[], ReadLines([]))
  {
  }

  lemma DictionaryValues(data: map<string, seq<string>>, block: string)
    requires Dictionary(data, Fields(block))
    ensures forall key :: Get(data, key) == Values(block, key)
  {
    hide Fields;
  }

  /** Every block that is a peer must name one valid key not seen before. */
  method ReadPeers(n: Notation, text: string) returns (found: Option<map<Key, seq<Network>>>)
    ensures found == Peers(n, text)
  {
    hide Fields, ValidKey, ReadNetworks, Items, IsPeer, Blocks;
    var bs := Blocks(text);
    var peers: map<Key, seq<Network>> := map[];
    for i := 0 to |bs|
      invariant Collect(n, bs[i..], peers) == Peers(n, text)
    {
      assert bs[i..][0] == bs[i] && bs[i..][1..] == bs[i + 1..];
      if IsPeer(bs[i]) {
        var data := ReadFields(bs[i]);
        var keys := Get(data, "publickey");
        if |keys| != 1 || keys[0] in peers || !ValidKey(keys[0]) {
          return None;
        }
        var networks := ReadNetworks(n, Items(Get(data, "allowedips")));
        if networks.None? {
          return None;
        }
        peers := peers[keys[0] := networks.value];
      }
    }
    found := Some(peers);
  }

  predicate CoveredBy(used: seq<Network>, a: Address) {
    exists i :: 0 <= i < |used| && Covers(used[i], a)
  }

  /** All networks of a table of peers. */
  method NetworksOf(peers: map<Key, seq<Network>>) returns (used: seq<Network>)
    ensures forall net :: net in used <==> Listed(peers, net)
  {
    used := [];
    RowsExist(peers.Keys);
    var rows: seq<Key> :| Lists(rows, peers.Keys);
    for i := 0 to |rows|
      invariant forall net :: net in used <==> exists j :: 0 <= j < i && net in peers[rows[j]]
    {
      used := used + peers[rows[i]];
    }
    forall net
      ensures net in used <==> Listed(peers, net)
    {
      if Listed(peers, net) {
        var k :| k in peers && net in peers[k];
        assert k in rows;
      }
    }
  }

  method RegisteredHosts(records: Registry) returns (used: seq<Network>)
    ensures forall net :: net in used <==> exists name :: name in records && Host(records[name].address) == net
  {
    used := [];
    RowsExist(records.Keys);
    var rows: seq<string> :| Lists(rows, records.Keys);
    for i := 0 to |rows|
      invariant forall net :: net in used <==> exists j :: 0 <= j < i && Host(records[rows[j]].address) == net
    {
      used := used + [Host(records[rows[i]].address)];
    }
    forall net
      ensures net in used <==> exists name :: name in records && Host(records[name].address) == net
    {
      if name :| name in records && Host(records[name].address) == net {
        assert name in rows;
      }
    }
  }

  method Occupied(used: seq<Network>, a: Address) returns (taken: bool)
    ensures taken == CoveredBy(used, a)
  {
    taken := false;
    for i := 0 to |used|
      invariant taken <==> exists j :: 0 <= j < i && Covers(used[j], a)
    {
      if Covers(used[i], a) {
        taken := true;
      }
    }
  }

  class PeerRegistry {
    const setup: Setup
    var config: string
    var registry: Option<Registry>
    var live: map<Key, seq<Network>>

    constructor (setup: Setup, s: Stores)
      ensures this.setup == setup && State() == s
    {
      this.setup, config, registry, live := setup, s.config, s.registry, s.live;
    }

    function State(): Stores
      reads this
    {
      Stores(config, registry, live)
    }

    /** The lowest address of the pool that no network covers, or the requested one. */
    method FindAddress(file: map<Key, seq<Network>>, records: Registry, hosts: seq<Network>, requested: Option<Address>)
      returns (a: Option<Address>)
      ensures a == Allocate(setup, file, live, records, hosts, requested)
    {
      var inFile := NetworksOf(file);
      var inKernel := NetworksOf(live);
      var registered := RegisteredHosts(records);
      var used := inFile + inKernel + registered + hosts;
      assert forall net :: net in used <==> Used(file, live, records, hosts, net);
      forall b: Address
        ensures CoveredBy(used, b) <==> Taken(file, live, records, hosts, b)
      {
        CoveredTaken(used, file, live, records, hosts, b);
      }
      if requested.Some? {
        if requested.value < setup.start || setup.end < requested.value {
          return None;
        }
        var taken := Occupied(used, requested.value);
        return if taken then None else requested;
      }
      var candidate := setup.start;
      while candidate <= setup.end
        invariant FirstFree(file, live, records, hosts, setup.start, setup.end)
               == FirstFree(file, live, records, hosts, candidate, setup.end)
        decreases setup.end - candidate
      {
        var taken := Occupied(used, candidate);
        if !taken {
          return Some(candidate);
        }
        candidate := candidate + 1;
      }
      a := None;
    }

    /** Undo what a failed transaction did, step by step; every step may fail itself. */
    method Compensate(before: Stores, key: Key, changedLive: bool, fault: Fault) returns (outcome: Outcome)
      modifies this`config, this`registry, this`live
      ensures (State(), outcome) == PeerServerSpec.Compensate(before, old(State()), key, changedLive, fault)
    {
      if fault.restoreConfig {
        return Broken;
      }
      config := before.config;
      if fault.restoreRegistry {
        return Broken;
      }
      registry := before.registry;
      if changedLive {
        if fault.restoreLive {
          return Broken;
        }
        if key in before.live {
          live := Give(live, key, before.live[key]);
        } else {
          live := live - {key};
        }
      }
      outcome := Restored;
    }

    method Transaction(after: string, records: Registry, key: Key, address: Option<Address>, fault: Fault)
      returns (outcome: Outcome)
      modifies this`config, this`registry, this`live
      ensures (State(), outcome) == PeerServerSpec.Transaction(old(State()), after, records, key, address, fault)
    {
      if fault.prepare {
        return Untouched;
      }
      var before := State();
      if fault.config {
        outcome := Compensate(before, key, false, fault);
        return;
      }
      config := after;
      if fault.registry {
        outcome := Compensate(before, key, false, fault);
        return;
      }
      registry := Some(records);
      if fault.live == Works || fault.live.applied {
        live := Apply(live, key, address);
      }
      if fault.live.Fails? {
        outcome := Compensate(before, key, true, fault);
        return;
      }
      outcome := Done;
    }

    method Add(r: Request, requested: Option<Address>, serverKey: Option<Key>, fault: Fault) returns (reply: Reply)
      modifies this`config, this`registry, this`live
      ensures (State(), reply) == PeerServerSpec.Add(setup, old(State()), r, requested, serverKey, fault)
    {
      if !ValidRequest(r) || SaveConfig(config) {
        return Refused;
      }
      var file := ReadPeers(setup.notation, config);
      if file.None? {
        return Refused;
      }
      var records := Records(registry);
      if r.hostname in records || r.key in file.value || r.key in live || Duplicate(records, r) {
        return Refused;
      }
      var hosts := InterfaceHosts(setup.notation, config);
      if hosts.None? {
        return Refused;
      }
      var address := FindAddress(file.value, records, hosts.value, requested);
      if address.None? || !ValidEndpoint(setup.endpoint) || serverKey.None? {
        return Refused;
      }
      var registration := Registration(r, address.value, setup.endpoint, serverKey.value);
      var after := Added(setup.notation, config, r.hostname, r.key, address.value);
      var outcome := Transaction(after, records[r.hostname := registration], r.key, address, fault);
      return if outcome == Done then Registered(registration) else Failed(outcome);
    }

    method Remove(name: string, fault: Fault) returns (reply: Reply)
      modifies this`config, this`registry, this`live
      ensures (State(), reply) == PeerServerSpec.Remove(setup, old(State()), name, fault)
    {
      if !ValidName(name) || SaveConfig(config) {
        return Refused;
      }
      var file := ReadPeers(setup.notation, config);
      var records := Records(registry);
      if file.None? || name !in records {
        return Refused;
      }
      var key := records[name].request.key;
      var expected := [Host(records[name].address)];
      if key !in file.value || file.value[key] != expected || (key in live && live[key] != expected) {
        return Refused;
      }
      var outcome := Transaction(Removed(config, key), records - {name}, key, None, fault);
      return if outcome == Done then Deleted else Failed(outcome);
    }
  }

  lemma CoveredTaken(used: seq<Network>, file: map<Key, seq<Network>>, live: map<Key, seq<Network>>, records: Registry,
                     hosts: seq<Network>, b: Address)
    requires forall net :: net in used <==> Used(file, live, records, hosts, net)
    ensures CoveredBy(used, b) <==> Taken(file, live, records, hosts, b)
  {
    if Taken(file, live, records, hosts, b) {
      var net :| Used(file, live, records, hosts, net) && Covers(net, b);
      assert net in used;
    }
  }
}
