/** What a sync promises: how the counters add up, what garbage collection
    may delete, and that a second sync right after a first one finds every
    host unchanged. */
module ReconcileProperties {
  import opened IpStore
  import opened Reconcile

  /** No two desired hosts share an address. */
  predicate UniqueAddresses(hosts: seq<Host>)
  {
    forall i, j :: 0 <= i < j < |hosts| ==> hosts[i].address != hosts[j].address
  }

  /** Desired addresses are plain addresses, without a `/prefix`. */
  predicate BareAddresses(hosts: seq<Host>)
  {
    forall i :: 0 <= i < |hosts| ==> '/' !in hosts[i].address
  }

  /** No desired address is duplicated in the store. */
  ghost predicate Unambiguous(records: map<nat, Record>, hosts: seq<Host>)
  {
    forall i :: 0 <= i < |hosts| ==> |MatchIds(records, hosts[i].address)| <= 1
  }

  /** The store holds exactly one record for `host`, and that record is
      untagged or already carries the host's description. */
  ghost predicate SettledFor(records: map<nat, Record>, tag: string, host: Host)
  {
    && |MatchIds(records, host.address)| == 1
    && forall id :: id in MatchIds(records, host.address) ==> Fits(records[id], tag, host)
  }

  ghost predicate Settled(records: map<nat, Record>, tag: string, hosts: seq<Host>)
  {
    forall i :: 0 <= i < |hosts| ==> SettledFor(records, tag, hosts[i])
  }

  /** Going from `before` to `after`, no record was deleted, no address or
      tag list changed, records at undesired addresses are as they were, and
      every new record sits at a desired address. */
  ghost predicate Untouched(before: map<nat, Record>, after: map<nat, Record>, hosts: seq<Host>)
  {
    && (forall id :: id in before ==>
          && id in after
          && after[id].address == before[id].address
          && after[id].tags == before[id].tags
          && (!Listed(Normalize(before[id].address), hosts) ==> after[id] == before[id]))
    && (forall id :: id in after && id !in before ==> Listed(Normalize(after[id].address), hosts))
  }

  // ---------------------------------------------------------------------
  // Helpers about prefixes of the host list.

  lemma ListedLast(address: string, hosts: seq<Host>)
    requires hosts != []
    ensures Listed(address, hosts) <==>
      Listed(address, hosts[..|hosts| - 1]) || address == hosts[|hosts| - 1].address
  {
    var init := hosts[..|hosts| - 1];
    if Listed(address, init) {
      var i :| 0 <= i < |init| && init[i].address == address;
      assert hosts[i].address == address;
    }
    if Listed(address, hosts) && address != hosts[|hosts| - 1].address {
      var i :| 0 <= i < |hosts| && hosts[i].address == address;
      assert init[i].address == address;
    }
  }

  lemma ListedSingle(address: string, host: Host)
    ensures Listed(address, [host]) <==> address == host.address
  {
    if address == host.address {
      assert [host][0].address == address;
    }
  }

  /** Through an untouched step, an undesired address keeps its matches. */
  lemma SameMatches(before: map<nat, Record>, after: map<nat, Record>, hosts: seq<Host>, address: string)
    requires Untouched(before, after, hosts)
    requires !Listed(address, hosts)
    ensures MatchIds(after, address) == MatchIds(before, address)
    ensures forall id :: id in MatchIds(before, address) ==> after[id] == before[id]
  {
  }

  /** One upsert of a bare host touches only records at its own address. */
  lemma UpsertFrame(remote: Remote, tag: string, host: Host)
    requires WellFormed(remote) && '/' !in host.address
    ensures WellFormed(Upsert(remote, tag, host).remote)
    ensures Untouched(remote.records, Upsert(remote, tag, host).remote.records, [host])
  {
    var after := Upsert(remote, tag, host).remote.records;
    forall id | id in remote.records
      ensures !Listed(Normalize(remote.records[id].address), [host]) ==> after[id] == remote.records[id]
    {
      ListedSingle(Normalize(remote.records[id].address), host);
    }
    forall id | id in after && id !in remote.records
      ensures Listed(Normalize(after[id].address), [host])
    {
      ListedSingle(Normalize(after[id].address), host);
    }
  }

  // ---------------------------------------------------------------------
  // Counters.

  /** Every upsert bumps exactly one of unchanged/created/updated/errors and
      never `deleted`. */
  lemma {:induction false} UpsertAllCounts(s: State, tag: string, hosts: seq<Host>)
    ensures Upserts(UpsertAll(s, tag, hosts).stats) == Upserts(s.stats) + |hosts|
    ensures UpsertAll(s, tag, hosts).stats.deleted == s.stats.deleted
  {
    if hosts != [] {
      var mid := UpsertAll(s, tag, hosts[..|hosts| - 1]);
      UpsertAllCounts(s, tag, hosts[..|hosts| - 1]);
      BumpUpserts(mid.stats, Upsert(mid.remote, tag, hosts[|hosts| - 1]).outcome);
    }
  }

  /** Garbage collection moves only `deleted`, by the number of stale records. */
  lemma CollectStats(s: State, tag: string, hosts: seq<Host>)
    ensures Upserts(Collect(s, tag, hosts).stats) == Upserts(s.stats)
    ensures Collect(s, tag, hosts).stats.deleted == s.stats.deleted + |Stale(s.remote.records, tag, hosts)|
  {
  }

  /** After a sync the four upsert counters add up to the number of hosts;
      `deleted` counts the records garbage collection found stale after the
      upsert loop, and is 0 without cleanup. */
  lemma SyncCounts(remote: Remote, tag: string, hosts: seq<Host>, cleanup: bool)
    ensures Upserts(Synced(remote, tag, hosts, cleanup).stats) == |hosts|
    ensures cleanup ==>
      Synced(remote, tag, hosts, cleanup).stats.deleted ==
      |Stale(UpsertAll(State(remote, Zero), tag, hosts).remote.records, tag, hosts)|
    ensures !cleanup ==> Synced(remote, tag, hosts, cleanup).stats.deleted == 0
  {
    var upserted := UpsertAll(State(remote, Zero), tag, hosts);
    UpsertAllCounts(State(remote, Zero), tag, hosts);
    CollectStats(upserted, tag, hosts);
  }

  // ---------------------------------------------------------------------
  // The upsert loop deletes nothing.

  /** One upsert deletes no record and changes no address or tag list. */
  lemma UpsertKeeps(remote: Remote, tag: string, host: Host)
    requires WellFormed(remote)
    ensures WellFormed(Upsert(remote, tag, host).remote)
    ensures forall id :: id in remote.records ==>
      && id in Upsert(remote, tag, host).remote.records
      && Upsert(remote, tag, host).remote.records[id].address == remote.records[id].address
      && Upsert(remote, tag, host).remote.records[id].tags == remote.records[id].tags
  {
  }

  lemma {:induction false} UpsertAllKeeps(s: State, tag: string, hosts: seq<Host>)
    requires WellFormed(s.remote)
    ensures WellFormed(UpsertAll(s, tag, hosts).remote)
    ensures forall id :: id in s.remote.records ==>
      && id in UpsertAll(s, tag, hosts).remote.records
      && UpsertAll(s, tag, hosts).remote.records[id].address == s.remote.records[id].address
      && UpsertAll(s, tag, hosts).remote.records[id].tags == s.remote.records[id].tags
  {
    if hosts != [] {
      UpsertAllKeeps(s, tag, hosts[..|hosts| - 1]);
      UpsertKeeps(UpsertAll(s, tag, hosts[..|hosts| - 1]).remote, tag, hosts[|hosts| - 1]);
    }
  }

  /** With `cleanup` false a sync deletes no record and counts no deletion;
      every record keeps its address and tags. */
  lemma NoCleanupDeletesNothing(remote: Remote, tag: string, hosts: seq<Host>)
    requires WellFormed(remote)
    ensures Synced(remote, tag, hosts, false).stats.deleted == 0
    ensures forall id :: id in remote.records ==>
      && id in Synced(remote, tag, hosts, false).remote.records
      && Synced(remote, tag, hosts, false).remote.records[id].address == remote.records[id].address
      && Synced(remote, tag, hosts, false).remote.records[id].tags == remote.records[id].tags
  {
    UpsertAllCounts(State(remote, Zero), tag, hosts);
    UpsertAllKeeps(State(remote, Zero), tag, hosts);
  }

  /** One upsert leaves every record without the tag exactly as it was. */
  lemma UpsertKeepsUntagged(remote: Remote, tag: string, host: Host)
    requires WellFormed(remote)
    ensures forall id :: id in remote.records && tag !in remote.records[id].tags ==>
      id in Upsert(remote, tag, host).remote.records &&
      Upsert(remote, tag, host).remote.records[id] == remote.records[id]
  {
  }

  lemma {:induction false} UpsertAllKeepsUntagged(s: State, tag: string, hosts: seq<Host>)
    requires WellFormed(s.remote)
    ensures forall id :: id in s.remote.records && tag !in s.remote.records[id].tags ==>
      id in UpsertAll(s, tag, hosts).remote.records &&
      UpsertAll(s, tag, hosts).remote.records[id] == s.remote.records[id]
  {
    if hosts != [] {
      var init := hosts[..|hosts| - 1];
      UpsertAllKeepsUntagged(s, tag, init);
      UpsertAllKeeps(s, tag, init);
      UpsertKeepsUntagged(UpsertAll(s, tag, init).remote, tag, hosts[|hosts| - 1]);
    }
  }

  /** A sync, with or without cleanup, never changes or deletes a record
      that lacks the scanner's tag. */
  lemma SyncKeepsUntagged(remote: Remote, tag: string, hosts: seq<Host>, cleanup: bool)
    requires WellFormed(remote)
    ensures forall id :: id in remote.records && tag !in remote.records[id].tags ==>
      id in Synced(remote, tag, hosts, cleanup).remote.records &&
      Synced(remote, tag, hosts, cleanup).remote.records[id] == remote.records[id]
  {
    UpsertAllKeepsUntagged(State(remote, Zero), tag, hosts);
  }

  /** A sync with cleanup deletes every tagged record that is stale in the
      store it starts from: the upsert loop keeps such a record's address and
      tags, so garbage collection still finds it stale. */
  lemma SyncDeletesStale(remote: Remote, tag: string, hosts: seq<Host>)
    requires WellFormed(remote)
    ensures forall id :: id in Stale(remote.records, tag, hosts) ==>
      id !in Synced(remote, tag, hosts, true).remote.records
  {
    var upserted := UpsertAll(State(remote, Zero), tag, hosts);
    UpsertAllKeeps(State(remote, Zero), tag, hosts);
    forall id | id in Stale(remote.records, tag, hosts)
      ensures id !in Collect(upserted, tag, hosts).remote.records
    {
      assert id in upserted.remote.records;
      assert upserted.remote.records[id].address == remote.records[id].address;
    }
  }

  // ---------------------------------------------------------------------
  // What the upsert loop leaves outside the desired addresses.

  lemma {:induction false} UpsertAllFrame(s: State, tag: string, hosts: seq<Host>)
    requires WellFormed(s.remote) && BareAddresses(hosts)
    ensures WellFormed(UpsertAll(s, tag, hosts).remote)
    ensures Untouched(s.remote.records, UpsertAll(s, tag, hosts).remote.records, hosts)
  {
    if hosts != [] {
      var init, last := hosts[..|hosts| - 1], hosts[|hosts| - 1];
      UpsertAllFrame(s, tag, init);
      var mid := UpsertAll(s, tag, init);
      UpsertFrame(mid.remote, tag, last);
      var before, middle, after := s.remote.records, mid.remote.records, UpsertAll(s, tag, hosts).remote.records;
      forall id | id in before
        ensures !Listed(Normalize(before[id].address), hosts) ==> after[id] == before[id]
      {
        ListedLast(Normalize(before[id].address), hosts);
        ListedSingle(Normalize(before[id].address), last);
      }
      forall id | id in after && id !in before
        ensures Listed(Normalize(after[id].address), hosts)
      {
        ListedLast(Normalize(after[id].address), hosts);
        ListedSingle(Normalize(after[id].address), last);
      }
    }
  }

  // ---------------------------------------------------------------------
  // Settling.

  /** One upsert of a bare host whose address is not duplicated settles it. */
  lemma UpsertSettles(remote: Remote, tag: string, host: Host)
    requires WellFormed(remote) && '/' !in host.address
    requires |MatchIds(remote.records, host.address)| <= 1
    ensures SettledFor(Upsert(remote, tag, host).remote.records, tag, host)
  {
    var e := Upsert(remote, tag, host);
    var m := MatchIds(remote.records, host.address);
    TwoMembers(m);
    if e.outcome == Created {
      assert MatchIds(e.remote.records, host.address) == {remote.nextId};
    } else {
      assert MatchIds(e.remote.records, host.address) == m;
    }
  }

  /** A host settled before an upsert of a host at another address stays settled. */
  lemma UpsertKeepsSettled(remote: Remote, tag: string, host: Host, other: Host)
    requires WellFormed(remote) && '/' !in host.address
    requires other.address != host.address
    requires SettledFor(remote.records, tag, other)
    ensures SettledFor(Upsert(remote, tag, host).remote.records, tag, other)
  {
    UpsertFrame(remote, tag, host);
    ListedSingle(other.address, host);
    SameMatches(remote.records, Upsert(remote, tag, host).remote.records, [host], other.address);
  }

  /** Upserting one more host, at a new address not duplicated in the store,
      settles it and keeps the earlier hosts settled. */
  lemma SettleLast(mid: Remote, tag: string, init: seq<Host>, last: Host)
    requires WellFormed(mid) && '/' !in last.address
    requires |MatchIds(mid.records, last.address)| <= 1
    requires Settled(mid.records, tag, init)
    requires forall i :: 0 <= i < |init| ==> init[i].address != last.address
    ensures Settled(Upsert(mid, tag, last).remote.records, tag, init + [last])
  {
    var hosts := init + [last];
    var after := Upsert(mid, tag, last).remote.records;
    UpsertSettles(mid, tag, last);
    forall i | 0 <= i < |hosts|
      ensures SettledFor(after, tag, hosts[i])
    {
      if i < |init| {
        assert hosts[i] == init[i];
        UpsertKeepsSettled(mid, tag, last, init[i]);
      }
    }
  }

  /** Under unique bare addresses without duplicates in the store, the
      upsert loop settles every host. */
  lemma {:induction false} UpsertAllSettles(s: State, tag: string, hosts: seq<Host>)
    requires WellFormed(s.remote) && BareAddresses(hosts) && UniqueAddresses(hosts)
    requires Unambiguous(s.remote.records, hosts)
    ensures Settled(UpsertAll(s, tag, hosts).remote.records, tag, hosts)
  {
    if hosts != [] {
      var init, last := hosts[..|hosts| - 1], hosts[|hosts| - 1];
      assert forall i :: 0 <= i < |init| ==> init[i] == hosts[i];
      assert hosts == init + [last];
      UpsertAllSettles(s, tag, init);
      UpsertAllFrame(s, tag, init);
      var mid := UpsertAll(s, tag, init);
      assert !Listed(last.address, init);
      SameMatches(s.remote.records, mid.remote.records, init, last.address);
      assert |MatchIds(s.remote.records, hosts[|hosts| - 1].address)| <= 1;
      SettleLast(mid.remote, tag, init, last);
    }
  }

  /** When every host is settled, the upsert loop changes nothing and counts
      every host unchanged. */
  lemma {:induction false} SettledUnchanged(s: State, tag: string, hosts: seq<Host>)
    requires Settled(s.remote.records, tag, hosts)
    ensures UpsertAll(s, tag, hosts) ==
      State(s.remote, s.stats.(unchangedCount := s.stats.unchangedCount + |hosts|))
  {
    if hosts != [] {
      var init, last := hosts[..|hosts| - 1], hosts[|hosts| - 1];
      assert forall i :: 0 <= i < |init| ==> init[i] == hosts[i];
      SettledUnchanged(s, tag, init);
      assert SettledFor(s.remote.records, tag, last);
      var m := MatchIds(s.remote.records, last.address);
      TwoMembers(m);
      assert Upsert(s.remote, tag, last).outcome == Unchanged;
    }
  }

  /** Garbage collection keeps settled hosts settled and leaves nothing stale. */
  lemma CollectKeepsSettled(s: State, tag: string, hosts: seq<Host>)
    requires Settled(s.remote.records, tag, hosts)
    ensures Settled(Collect(s, tag, hosts).remote.records, tag, hosts)
    ensures Stale(Collect(s, tag, hosts).remote.records, tag, hosts) == {}
  {
    var before, after := s.remote.records, Collect(s, tag, hosts).remote.records;
    forall i | 0 <= i < |hosts|
      ensures SettledFor(after, tag, hosts[i])
    {
      assert Listed(hosts[i].address, hosts);
      assert MatchIds(after, hosts[i].address) == MatchIds(before, hosts[i].address);
    }
  }

  // ---------------------------------------------------------------------
  // Idempotence.

  /** A sync right after a completed sync, with unique bare host addresses and
      no duplicated address in the store, changes nothing: every host counts
      unchanged and no other counter moves. After the first sync every host
      has exactly one record, untagged or tagged with its description. */
  lemma SyncIdempotent(remote: Remote, tag: string, hosts: seq<Host>, cleanup: bool)
    requires WellFormed(remote) && BareAddresses(hosts) && UniqueAddresses(hosts)
    requires Unambiguous(remote.records, hosts)
    ensures Settled(Synced(remote, tag, hosts, cleanup).remote.records, tag, hosts)
    ensures var first := Synced(remote, tag, hosts, cleanup);
      && Synced(first.remote, tag, hosts, cleanup).remote == first.remote
      && Synced(first.remote, tag, hosts, cleanup).stats == Stats(|hosts|, 0, 0, 0, 0)
  {
    var upserted := UpsertAll(State(remote, Zero), tag, hosts);
    UpsertAllSettles(State(remote, Zero), tag, hosts);
    if cleanup {
      CollectKeepsSettled(upserted, tag, hosts);
    }
    var first := Synced(remote, tag, hosts, cleanup);
    SettledUnchanged(State(first.remote, Zero), tag, hosts);
    if cleanup {
      assert first.remote.records - {} == first.remote.records;
    }
  }

  // ---------------------------------------------------------------------
  // A first sync into an empty store.

  lemma {:induction false} FreshUpsertAll(s: State, tag: string, hosts: seq<Host>)
    requires WellFormed(s.remote) && BareAddresses(hosts) && UniqueAddresses(hosts)
    requires forall i :: 0 <= i < |hosts| ==> MatchIds(s.remote.records, hosts[i].address) == {}
    ensures UpsertAll(s, tag, hosts).stats == s.stats.(created := s.stats.created + |hosts|)
  {
    if hosts != [] {
      var init, last := hosts[..|hosts| - 1], hosts[|hosts| - 1];
      assert forall i :: 0 <= i < |init| ==> init[i] == hosts[i];
      FreshUpsertAll(s, tag, init);
      UpsertAllFrame(s, tag, init);
      var mid := UpsertAll(s, tag, init);
      assert !Listed(last.address, init);
      SameMatches(s.remote.records, mid.remote.records, init, last.address);
      assert MatchIds(s.remote.records, hosts[|hosts| - 1].address) == {};
    }
  }

  /** Syncing `n` unique bare hosts into an empty store creates all of them
      and counts nothing else, with or without cleanup. */
  lemma FirstSyncCreatesAll(nextId: nat, tag: string, hosts: seq<Host>, cleanup: bool)
    requires BareAddresses(hosts) && UniqueAddresses(hosts)
    ensures Synced(Remote(map[], nextId), tag, hosts, cleanup).stats == Stats(0, |hosts|, 0, 0, 0)
  {
    var empty := Remote(map[], nextId);
    FreshUpsertAll(State(empty, Zero), tag, hosts);
    UpsertAllFrame(State(empty, Zero), tag, hosts);
    var upserted := UpsertAll(State(empty, Zero), tag, hosts);
    assert Stale(upserted.remote.records, tag, hosts) == {};
  }
}
