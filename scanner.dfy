/** The scanner object: the desired hosts, the scope tag, the cleanup flag,
    the stats it updates in place and the store it reconciles. */
module Nbs {
  import opened IpStore
  import opened Reconcile

  class NetBoxScanner {
    const netbox: IpAddresses
    const hosts: seq<Host>
    const tag: string
    const cleanup: bool
    var stats: Stats

    /** The store and the counters, as one value. */
    function Abstract(): State
      reads this, netbox
    {
      State(netbox.View(), stats)
    }

    /** The store client is handed in; the counters start at zero. */
    constructor (netbox: IpAddresses, hosts: seq<Host>, tag: string, cleanup: bool)
      ensures this.netbox == netbox && this.hosts == hosts
      ensures this.tag == tag && this.cleanup == cleanup
      ensures stats == Zero
    {
      this.netbox := netbox;
      this.hosts := hosts;
      this.tag := tag;
      this.cleanup := cleanup;
      stats := Zero;
    }

    /** `sync_host`: upserts one host and counts the outcome; false only for
        a duplicated address. */
    method SyncHost(host: Host) returns (ok: bool)
      requires netbox.Valid()
      modifies this, netbox
      ensures netbox.Valid()
      ensures Abstract() == HostStep(old(Abstract()), tag, host)
      ensures ok <==> !Find(old(netbox.records), host.address).Ambiguous?
    {
      var found := netbox.Get(host.address);
      match found {
      case Ambiguous =>
        stats := stats.(errors := stats.errors + 1);
        return false;
      case Found(id) =>
        var nbhost := netbox.records[id];
        if tag in nbhost.tags {
          if host.description != nbhost.description {
            netbox.Save(id, nbhost.(description := host.description));
            stats := stats.(updated := stats.updated + 1);
          } else {
            stats := stats.(unchangedCount := stats.unchangedCount + 1);
          }
        } else {
          stats := stats.(unchangedCount := stats.unchangedCount + 1);
        }
      case NotFound =>
        var _ := netbox.Create(host.address, [tag], host.description);
        stats := stats.(created := stats.created + 1);
      }
      ok := true;
    }

    /** `garbage_collector`: deletes the tagged records whose address is no
        desired host's, counting each deletion. */
    method GarbageCollector()
      requires netbox.Valid()
      modifies this, netbox
      ensures netbox.Valid()
      ensures Abstract() == Collect(old(Abstract()), tag, hosts)
    {
      var nbhosts := netbox.Filter(tag);
      ghost var start := Abstract();
      ghost var stale := Stale(start.remote.records, tag, hosts);
      ghost var gone: set<nat> := {};
      var pending := nbhosts.Keys;
      assert start.remote.records - gone == start.remote.records;
      while pending != {}
        invariant pending <= nbhosts.Keys
        invariant forall x :: x in gone <==> x in stale && x !in pending
        invariant netbox.Valid()
        invariant Abstract() == Purge(start, gone)
        decreases pending
      {
        var id :| id in pending;
        var nbh := Normalize(nbhosts[id].address);
        assert id in stale <==> !Listed(nbh, hosts);
        if !Listed(nbh, hosts) {
          PurgeOneMore(start, gone, id);
          netbox.Delete(id);
          stats := stats.(deleted := stats.deleted + 1);
          gone := gone + {id};
        }
        pending := pending - {id};
      }
      assert gone == stale;
    }

    /** `sync`: resets the counters, upserts every host in order and, when
        `cleanup` is set, collects garbage. Always reports success. */
    method Sync() returns (ok: bool)
      requires netbox.Valid()
      modifies this, netbox
      ensures netbox.Valid()
      ensures Abstract() == Synced(old(netbox.View()), tag, hosts, cleanup)
      ensures ok
    {
      stats := Zero;
      for i := 0 to |hosts|
        invariant netbox.Valid()
        invariant Abstract() == UpsertAll(State(old(netbox.View()), Zero), tag, hosts[..i])
      {
        assert hosts[..i + 1][..i] == hosts[..i];
        var _ := SyncHost(hosts[i]);
      }
      assert hosts[..|hosts|] == hosts;
      if cleanup {
        GarbageCollector();
      }
      ok := true;
    }
  }
}
