/** Concrete runs: a first and second sync of two hosts into an empty store,
    the garbage collection of one stale tagged record, an update of one
    description, and the two inputs a sync never settles on (hosts sharing
    an address, and a host given with a `/prefix`). */
module Scenarios {
  import opened IpStore
  import opened Reconcile
  import opened ReconcileProperties

  /** Two hosts into an empty store, with cleanup: the first sync creates
      both, the second finds both unchanged and changes nothing. */
  lemma GatewayAndDns(tag: string, nextId: nat)
    ensures var hosts := [Host("10.0.0.1", "Gateway"), Host("10.0.0.2", "DNS")];
      var first := Synced(Remote(map[], nextId), tag, hosts, true);
      && first.stats == Stats(0, 2, 0, 0, 0)
      && Synced(first.remote, tag, hosts, true).stats == Stats(2, 0, 0, 0, 0)
      && Synced(first.remote, tag, hosts, true).remote == first.remote
  {
    var hosts := [Host("10.0.0.1", "Gateway"), Host("10.0.0.2", "DNS")];
    assert BareAddresses(hosts);
    assert UniqueAddresses(hosts);
    FirstSyncCreatesAll(nextId, tag, hosts, true);
    SyncIdempotent(Remote(map[], nextId), tag, hosts, true);
  }

  lemma CreatedFromZero()
    ensures Bump(Zero, Created) == Stats(0, 1, 0, 0, 0)
  {
  }

  lemma BumpTwice()
    ensures Bump(Bump(Zero, Created), Updated) == Stats(0, 1, 1, 0, 0)
    ensures Bump(Bump(Zero, Updated), Updated) == Stats(0, 0, 2, 0, 0)
  {
  }

  lemma UpsertAllOne(s: State, tag: string, host: Host)
    ensures UpsertAll(s, tag, [host]) == HostStep(s, tag, host)
  {
    assert [host][..0] == [];
  }

  lemma PurgeOne(s: State, id: nat)
    ensures Purge(s, {id}) ==
      State(s.remote.(records := s.remote.records - {id}), s.stats.(deleted := s.stats.deleted + 1))
  {
    assert |{id}| == 1;
  }

  /** Upserting a host next to one tagged record at another address with a
      prefix length creates the host's record under the next id. */
  lemma StaleRecordUpsertAll(stale: Record, tag: string, host: Host)
    requires Normalize(stale.address) != host.address
    ensures UpsertAll(State(Remote(map[0 := stale], 1), Zero), tag, [host]) ==
      State(Remote(map[0 := stale, 1 := Record(host.address, host.description, [tag])], 2), Stats(0, 1, 0, 0, 0))
  {
    var remote := Remote(map[0 := stale], 1);
    assert MatchIds(remote.records, host.address) == {};
    assert Upsert(remote, tag, host).outcome == Created;
    CreatedFromZero();
    UpsertAllOne(State(remote, Zero), tag, host);
  }

  /** Of the two records, only the one no host wants is stale. */
  lemma StaleRecordOnly(records: map<nat, Record>, stale: Record, tag: string, host: Host)
    requires tag in stale.tags && Normalize(stale.address) != host.address && '/' !in host.address
    requires records == map[0 := stale, 1 := Record(host.address, host.description, [tag])]
    ensures Stale(records, tag, [host]) == {0}
  {
    ListedSingle(Normalize(stale.address), host);
    ListedSingle(host.address, host);
  }

  /** Garbage collection then deletes that record only and counts it. */
  lemma StaleRecordCollect(s: State, stale: Record, tag: string, host: Host)
    requires tag in stale.tags && Normalize(stale.address) != host.address && '/' !in host.address
    requires s.remote.records == map[0 := stale, 1 := Record(host.address, host.description, [tag])]
    ensures Collect(s, tag, [host]) ==
      State(s.remote.(records := map[1 := Record(host.address, host.description, [tag])]),
            s.stats.(deleted := s.stats.deleted + 1))
  {
    StaleRecordOnly(s.remote.records, stale, tag, host);
    assert Collect(s, tag, [host]) == Purge(s, {0});
    PurgeOne(s, 0);
    assert s.remote.records - {0} == map[1 := Record(host.address, host.description, [tag])];
  }

  /** A tagged record at `address/prefix` that no host wants is deleted by a
      sync with cleanup (`deleted` is 1), and kept by a sync without cleanup
      (`deleted` is 0); the host is created either way. */
  lemma StaleRecord(tag: string, address: string, prefix: string, description: string, host: Host)
    requires '/' !in address && '/' !in host.address && address != host.address
    ensures var stale := Record(address + "/" + prefix, description, [tag]);
      var created := Record(host.address, host.description, [tag]);
      var remote := Remote(map[0 := stale], 1);
      && Synced(remote, tag, [host], true) == State(Remote(map[1 := created], 2), Stats(0, 1, 0, 1, 0))
      && Synced(remote, tag, [host], false) == State(Remote(map[0 := stale, 1 := created], 2), Stats(0, 1, 0, 0, 0))
  {
    var stale := Record(address + "/" + prefix, description, [tag]);
    NormalizeWithPrefix(address, prefix);
    StaleRecordUpsertAll(stale, tag, host);
    StaleRecordCollect(UpsertAll(State(Remote(map[0 := stale], 1), Zero), tag, [host]), stale, tag, host);
  }

  /** The 10.0.0.9/32 instance. */
  lemma StaleTenNine(tag: string)
    ensures var stale := Record("10.0.0.9/32", "old", [tag]);
      var gateway := Record("10.0.0.1", "Gateway", [tag]);
      var remote := Remote(map[0 := stale], 1);
      var hosts := [Host("10.0.0.1", "Gateway")];
      && Synced(remote, tag, hosts, true) == State(Remote(map[1 := gateway], 2), Stats(0, 1, 0, 1, 0))
      && Synced(remote, tag, hosts, false) == State(Remote(map[0 := stale, 1 := gateway], 2), Stats(0, 1, 0, 0, 0))
  {
    assert "10.0.0.9" + "/" + "32" == "10.0.0.9/32";
    StaleRecord(tag, "10.0.0.9", "32", "old", Host("10.0.0.1", "Gateway"));
  }

  lemma UpsertAllTwo(s: State, tag: string, first: Host, second: Host)
    ensures UpsertAll(s, tag, [first, second]) == HostStep(HostStep(s, tag, first), tag, second)
  {
    assert [first, second][..1] == [first];
    UpsertAllOne(s, tag, first);
  }

  /** With one record at `address`, tagged and with another description, a
      host at `address` updates that record's description. */
  lemma UpdateOnly(s: State, id: nat, tag: string, address: string, was: string, host: Host)
    requires '/' !in address && host.address == address && host.description != was
    requires s.remote.records == map[id := Record(address, was, [tag])]
    ensures HostStep(s, tag, host) ==
      State(s.remote.(records := map[id := Record(address, host.description, [tag])]), Bump(s.stats, Updated))
  {
    assert MatchIds(s.remote.records, address) == {id};
    assert s.remote.records[id := Record(address, host.description, [tag])] == map[id := Record(address, host.description, [tag])];
  }

  /** Into an empty store, a host is created under the next id. */
  lemma CreateIntoEmpty(s: State, tag: string, host: Host)
    requires s.remote.records == map[]
    ensures HostStep(s, tag, host) ==
      State(Remote(map[s.remote.nextId := Record(host.address, host.description, [tag])], s.remote.nextId + 1),
            Bump(s.stats, Created))
  {
    assert MatchIds(map[], host.address) == {};
    assert s.remote.records[s.remote.nextId := Record(host.address, host.description, [tag])] ==
      map[s.remote.nextId := Record(host.address, host.description, [tag])];
  }

  /** The first sync of two hosts sharing an address creates the record for
      the first and rewrites it with the second's description. */
  lemma DuplicateHostsFirst(tag: string, address: string, one: string, other: string, nextId: nat)
    requires '/' !in address && one != other
    ensures UpsertAll(State(Remote(map[], nextId), Zero), tag, [Host(address, one), Host(address, other)]) ==
      State(Remote(map[nextId := Record(address, other, [tag])], nextId + 1), Stats(0, 1, 1, 0, 0))
  {
    var h1, h2 := Host(address, one), Host(address, other);
    var empty := State(Remote(map[], nextId), Zero);
    CreateIntoEmpty(empty, tag, h1);
    UpdateOnly(HostStep(empty, tag, h1), nextId, tag, address, one, h2);
    BumpTwice();
    UpsertAllTwo(empty, tag, h1, h2);
  }

  /** Every later sync rewrites the record twice. */
  lemma DuplicateHostsAgain(tag: string, address: string, one: string, other: string, nextId: nat)
    requires '/' !in address && one != other
    ensures var remote := Remote(map[nextId := Record(address, other, [tag])], nextId + 1);
      UpsertAll(State(remote, Zero), tag, [Host(address, one), Host(address, other)]) ==
        State(remote, Stats(0, 0, 2, 0, 0))
  {
    var h1, h2 := Host(address, one), Host(address, other);
    var again := State(Remote(map[nextId := Record(address, other, [tag])], nextId + 1), Zero);
    UpdateOnly(again, nextId, tag, address, other, h1);
    UpdateOnly(HostStep(again, tag, h1), nextId, tag, address, one, h2);
    BumpTwice();
    UpsertAllTwo(again, tag, h1, h2);
  }

  /** Two hosts sharing an address but not a description, synced without
      cleanup: the first sync creates the record and rewrites it once, and
      every later sync rewrites it twice, so a second sync still counts two
      updates. Unique host addresses are needed for a sync to settle. */
  lemma DuplicateHosts(tag: string, address: string, one: string, other: string, nextId: nat)
    requires '/' !in address && one != other
    ensures var hosts := [Host(address, one), Host(address, other)];
      var first := Synced(Remote(map[], nextId), tag, hosts, false);
      && first.stats == Stats(0, 1, 1, 0, 0)
      && first.remote == Remote(map[nextId := Record(address, other, [tag])], nextId + 1)
      && Synced(first.remote, tag, hosts, false) == State(first.remote, Stats(0, 0, 2, 0, 0))
  {
    DuplicateHostsFirst(tag, address, one, other, nextId);
    DuplicateHostsAgain(tag, address, one, other, nextId);
  }

  /** The record created for a host given with a `/prefix` is stale: its
      address part has no prefix, so it equals no host address. */
  lemma PrefixedRecordStale(records: map<nat, Record>, id: nat, tag: string, host: Host, address: string, prefix: string)
    requires '/' !in address && host.address == address + "/" + prefix
    requires records == map[id := Record(host.address, host.description, [tag])]
    ensures Stale(records, tag, [host]) == {id}
  {
    NormalizeWithPrefix(address, prefix);
    assert |address| < |host.address|;
    ListedSingle(address, host);
  }

  /** A host given with a `/prefix`, synced with cleanup into an empty store,
      is created and then deleted again by garbage collection, which compares
      address parts with the hosts' addresses as given. */
  lemma PrefixedHostCollected(tag: string, address: string, prefix: string, description: string, nextId: nat)
    requires '/' !in address
    ensures Synced(Remote(map[], nextId), tag, [Host(address + "/" + prefix, description)], true) ==
      State(Remote(map[], nextId + 1), Stats(0, 1, 0, 1, 0))
  {
    var host := Host(address + "/" + prefix, description);
    var empty := State(Remote(map[], nextId), Zero);
    CreateIntoEmpty(empty, tag, host);
    CreatedFromZero();
    UpsertAllOne(empty, tag, host);
    var upserted := UpsertAll(empty, tag, [host]);
    PrefixedRecordStale(upserted.remote.records, nextId, tag, host, address, prefix);
    assert Collect(upserted, tag, [host]) == Purge(upserted, {nextId});
    PurgeOne(upserted, nextId);
    assert upserted.remote.records - {nextId} == map[];
  }
}
