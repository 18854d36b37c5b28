/** What one scanner run does, as values: the outcome of upserting one host,
    the upsert of every host in order, the tag-scoped garbage collection and
    the whole sync. The scanner class is proved to compute exactly these. */
module Reconcile {
  import opened IpStore

  /** A desired host: `(address, description)`. */
  datatype Host = Host(address: string, description: string)

  /** The five counters of the stats dictionary. */
  datatype Stats = Stats(unchangedCount: nat, created: nat, updated: nat, deleted: nat, errors: nat)

  const Zero := Stats(0, 0, 0, 0, 0)

  /** What upserting one host did. */
  datatype Outcome = Unchanged | Created | Updated | Error

  /** The counter an outcome is recorded in. */
  function Tally(s: Stats, o: Outcome): nat
  {
    match o
    case Unchanged => s.unchangedCount
    case Created => s.created
    case Updated => s.updated
    case Error => s.errors
  }

  /** The number of hosts the counters account for: all but `deleted`. */
  function Upserts(s: Stats): nat
  {
    s.unchangedCount + s.created + s.updated + s.errors
  }

  /** Records an outcome: its own counter goes up by one and no other moves. */
  function Bump(s: Stats, o: Outcome): (r: Stats)
    ensures Tally(r, o) == Tally(s, o) + 1
    ensures forall p: Outcome :: p != o ==> Tally(r, p) == Tally(s, p)
    ensures r.deleted == s.deleted
  {
    match o
    case Unchanged => s.(unchangedCount := s.unchangedCount + 1)
    case Created => s.(created := s.created + 1)
    case Updated => s.(updated := s.updated + 1)
    case Error => s.(errors := s.errors + 1)
  }

  /** So each outcome adds one to the upsert counters' total. */
  lemma BumpUpserts(s: Stats, o: Outcome)
    ensures Upserts(Bump(s, o)) == Upserts(s) + 1
  {
  }

  /** A record is in the state the scanner wants for `host` when it is not
      the scanner's (no tag) or it already has the host's description. */
  predicate Fits(r: Record, tag: string, host: Host)
  {
    tag !in r.tags || r.description == host.description
  }

  /** The outcome of one upsert and the store it leaves. */
  datatype Effect = Effect(outcome: Outcome, remote: Remote)

  /** Upserting one host into the store. */
  ghost function Upsert(remote: Remote, tag: string, host: Host): (e: Effect)
    // A duplicate is an error and changes nothing.
    ensures e.outcome == Error <==> Find(remote.records, host.address).Ambiguous?
    ensures e.outcome == Error ==> e.remote == remote
    // No match: one record is added under the next id, with the host's
    // address and description and exactly the scanner's tag.
    ensures e.outcome == Created <==> Find(remote.records, host.address).NotFound?
    ensures e.outcome == Created ==>
      && e.remote.nextId == remote.nextId + 1
      && e.remote.records.Keys == remote.records.Keys + {remote.nextId}
      && e.remote.records[remote.nextId] == Record(host.address, host.description, [tag])
      && forall id :: id in remote.records && id != remote.nextId ==>
           e.remote.records[id] == remote.records[id]
    // A tagged match with another description: only that record's
    // description changes, to the host's.
    ensures e.outcome == Updated ==>
      && Find(remote.records, host.address).Found?
      && var id := Find(remote.records, host.address).id;
      && tag in remote.records[id].tags
      && remote.records[id].description != host.description
      && e.remote.nextId == remote.nextId
      && e.remote.records.Keys == remote.records.Keys
      && e.remote.records[id].address == remote.records[id].address
      && e.remote.records[id].tags == remote.records[id].tags
      && e.remote.records[id].description == host.description
      && forall k :: k in remote.records && k != id ==> e.remote.records[k] == remote.records[k]
    // An untagged match, or a tagged one that already agrees: nothing changes.
    ensures e.outcome == Unchanged ==>
      && Find(remote.records, host.address).Found?
      && Fits(remote.records[Find(remote.records, host.address).id], tag, host)
      && e.remote == remote
  {
    match Find(remote.records, host.address)
    case Ambiguous => Effect(Error, remote)
    case NotFound =>
      Effect(Created, Remote(remote.records[remote.nextId := Record(host.address, host.description, [tag])],
                             remote.nextId + 1))
    case Found(id) =>
      var r := remote.records[id];
      if tag in r.tags && host.description != r.description then
        Effect(Updated, remote.(records := remote.records[id := r.(description := host.description)]))
      else
        Effect(Unchanged, remote)
  }

  /** The scanner's state: the store and the counters. */
  datatype State = State(remote: Remote, stats: Stats)

  /** One `sync_host` call: the upsert, and its outcome counted. */
  ghost function HostStep(s: State, tag: string, host: Host): State
  {
    var e := Upsert(s.remote, tag, host);
    State(e.remote, Bump(s.stats, e.outcome))
  }

  /** The upsert loop over `hosts`, first host first. */
  ghost function UpsertAll(s: State, tag: string, hosts: seq<Host>): State
    decreases |hosts|
  {
    if hosts == [] then s
    else HostStep(UpsertAll(s, tag, hosts[..|hosts| - 1]), tag, hosts[|hosts| - 1])
  }

  /** Some desired host has this address. */
  predicate Listed(address: string, hosts: seq<Host>)
  {
    exists i :: 0 <= i < |hosts| && hosts[i].address == address
  }

  /** The ids garbage collection deletes: tagged records whose normalised
      address is no desired host's. */
  function Stale(records: map<nat, Record>, tag: string, hosts: seq<Host>): set<nat>
  {
    set id | id in records && tag in records[id].tags && !Listed(Normalize(records[id].address), hosts)
  }

  /** Deletes the records `ids`, counting each one in `deleted`. */
  ghost function Purge(s: State, ids: set<nat>): State
  {
    State(s.remote.(records := s.remote.records - ids), s.stats.(deleted := s.stats.deleted + |ids|))
  }

  /** Purging one more id is one more deletion and one more count. */
  lemma PurgeOneMore(s: State, ids: set<nat>, id: nat)
    requires id !in ids
    ensures var p := Purge(s, ids);
      Purge(s, ids + {id}) == State(p.remote.(records := p.remote.records - {id}), p.stats.(deleted := p.stats.deleted + 1))
  {
    assert s.remote.records - (ids + {id}) == (s.remote.records - ids) - {id};
  }

  /** `garbage_collector`. */
  ghost function Collect(s: State, tag: string, hosts: seq<Host>): (t: State)
    ensures t.remote.nextId == s.remote.nextId
    // A record survives exactly when it is untagged or its address is desired ...
    ensures forall id :: id in s.remote.records ==>
      (id in t.remote.records <==>
         tag !in s.remote.records[id].tags || Listed(Normalize(s.remote.records[id].address), hosts))
    // ... survivors are untouched and nothing is added ...
    ensures forall id :: id in t.remote.records ==>
      id in s.remote.records && t.remote.records[id] == s.remote.records[id]
    // ... and `deleted` rises by the number removed, no other counter moving.
    ensures t.stats == s.stats.(deleted := s.stats.deleted + |Stale(s.remote.records, tag, hosts)|)
  {
    Purge(s, Stale(s.remote.records, tag, hosts))
  }

  /** The number `garbage_collector` adds to `deleted` is the number of
      records it removes. */
  lemma CollectCountsRemoved(s: State, tag: string, hosts: seq<Host>)
    ensures var t := Collect(s, tag, hosts);
      t.stats.deleted - s.stats.deleted == |s.remote.records.Keys - t.remote.records.Keys|
  {
    var stale := Stale(s.remote.records, tag, hosts);
    assert s.remote.records.Keys - (s.remote.records - stale).Keys == stale;
  }

  /** `sync`: counters reset, every host upserted, then garbage collection
      when `cleanup` is set. */
  ghost function Synced(remote: Remote, tag: string, hosts: seq<Host>, cleanup: bool): State
  {
    var upserted := UpsertAll(State(remote, Zero), tag, hosts);
    if cleanup then Collect(upserted, tag, hosts) else upserted
  }
}
