# netbox-scanner reconciler, modelled in Dafny

`NetBoxScanner` (nbs/__init__.py) makes a NetBox instance agree with a list
of desired hosts. Each host is an `(address, description)` pair. The scanner
owns the IP-address records that carry its tag. A sync works in three steps:

1. It resets five counters: unchanged, created, updated, deleted, errors.
2. It upserts every host in order. For each host it looks the address up,
   then does one of four things:
   - creates a record when there is none;
   - rewrites the description when the record carries the tag and the description differs;
   - leaves the record alone otherwise;
   - counts an error when the address is duplicated in the store.
3. When `cleanup` is set, it deletes every tagged record whose address part
   is no desired host's address. The address part is the text before the
   first `/`.

The model has four layers:

- `IpStore` (ip_store.dfy) replaces the pynetbox client with an in-memory
  store, the class `IpAddresses`. Its records are kept in a map from record
  id to `Record(address, description, tags)`. It offers the five calls the
  scanner makes: `get`, `filter`, `create`, `save` and `delete`.
  - The lookup returns `Found(id)`, `NotFound` or `Ambiguous`.
  - `Ambiguous` stands for the `ValueError` that pynetbox raises on a
    duplicate.
- `Reconcile` (reconcile.dfy) states what a run does, as values. It has:
  - the outcome of one upsert (`Upsert`, `HostStep`);
  - the upsert loop, as a left fold (`UpsertAll`);
  - garbage collection (`Collect`);
  - the whole sync (`Synced`).
- `Nbs` (scanner.dfy) is the imperative scanner, the class `NetBoxScanner`.
  - It has the stats field it updates in place, and the loops of `sync` and
    `garbage_collector`.
  - Each method is proved to leave the store and the counters exactly as the
    `Reconcile` function of the same step says.
- `ReconcileProperties` (properties.dfy) and `Scenarios` (scenarios.dfy)
  prove what those functions promise:
  - the counter identities;
  - that garbage collection deletes exactly the stale tagged records;
  - that a sync without cleanup deletes nothing;
  - that a second sync changes nothing, when host addresses are unique and
    carry no `/prefix`, and no desired address is duplicated in the store;
  - concrete runs, including ones that show why those conditions are needed.

The stats dictionary is the datatype `Stats`. Its `unchanged` key is the
field `unchangedCount`, because `unchanged` is a Dafny keyword.

## Model

| member | source | states |
|---|---|---|
| IpStore.Normalize | nbs/__init__.py:63 | `split('/')[0]`: the result is a prefix of the stored address with no '/'; it stops at the first '/' or at the end; a string without '/' is its own address part |
| IpStore.NormalizeAtSlash | nbs/__init__.py:63 | when the first '/' is at index k, the address part is exactly the first k characters |
| IpStore.NormalizeWithPrefix | nbs/__init__.py:63 | an address without '/' followed by `/prefix` has that address as its address part |
| IpStore.MatchIds | nbs/__init__.py:28 | defines the records `get(address=...)` matches: the ids whose address part equals the query. `IpStore.Find` classifies them, and `IpStore.SlashNeverMatches` shows a query containing '/' matches nothing |
| IpStore.SlashNeverMatches | nbs/__init__.py:28 | a query containing '/' matches no record, because no address part contains '/' |
| IpStore.Find | nbs/__init__.py:27-34 | the lookup of `get(address=...)`: NotFound iff no record matches; Found(id) only when id is the single match; Ambiguous (the ValueError) iff two distinct records match |
| IpStore.IpAddresses.Get | nbs/__init__.py:28 | the store's lookup returns exactly `Find` on its current records and changes nothing |
| IpStore.Tagged | nbs/__init__.py:61 | `filter(tag=...)`: an id is in the result iff its record carries the tag, with the record unchanged |
| IpStore.IpAddresses.Filter | nbs/__init__.py:61 | the store's filter returns exactly the tagged records and changes nothing |
| IpStore.IpAddresses.Create | nbs/__init__.py:49-53 | adds one record with the given address, tags and description under a fresh id; no other record changes |
| IpStore.IpAddresses.Save | nbs/__init__.py:38-39 | writes the record back under its id; the other records and the id counter are unchanged |
| IpStore.IpAddresses.Delete | nbs/__init__.py:65 | removes exactly that id; the id counter is unchanged |
| Reconcile.Bump | nbs/__init__.py:31-55 | counting an outcome adds one to its own counter; the other counters and `deleted` do not move |
| Reconcile.BumpUpserts | nbs/__init__.py:21-57 | each counted upsert adds exactly one to unchanged + created + updated + errors |
| Reconcile.Upsert | nbs/__init__.py:27-57 | five cases. A duplicate is Error and changes nothing. No match is Created: one record under the next id, with the host's address and description and tags exactly `[tag]`, others unchanged. A tagged match with another description is Updated: only its description changes, to the host's, address and tags kept. Any other match is Unchanged: the store is untouched |
| Reconcile.HostStep | nbs/__init__.py:21-57 | defines one `sync_host` call as a value: the upsert's new store, with its outcome counted by `Bump`. `Nbs.NetBoxScanner.SyncHost` is proved equal to it; `Reconcile.Upsert` and `Reconcile.Bump` state its cases |
| Reconcile.UpsertAll | nbs/__init__.py:77-78 | defines the host loop, first host first, as a fold of `HostStep`. `ReconcileProperties.UpsertAllCounts`, `UpsertAllKeeps`, `UpsertAllFrame` and `UpsertAllSettles` state its properties |
| Reconcile.Listed | nbs/__init__.py:64 | defines `any(nbh == addr[0] for addr in self.hosts)`: some host has exactly this address. `Reconcile.Collect` keeps a tagged record iff its address part is listed |
| Reconcile.Stale | nbs/__init__.py:62-64 | defines the ids garbage collection deletes: tagged records whose address part is not listed. `Reconcile.Collect` and `ReconcileProperties.CollectStats` state what deleting them does |
| Reconcile.PurgeOneMore | nbs/__init__.py:65-67 | deleting one more record is one more removal and one more `deleted` |
| Reconcile.Collect | nbs/__init__.py:59-67 | a record survives iff it is untagged or its address part is some host's address. Survivors are untouched and nothing is added. `deleted` rises by the number of stale records and no other counter moves |
| Reconcile.CollectCountsRemoved | nbs/__init__.py:65-67 | the rise in `deleted` equals the number of records removed from the store |
| Reconcile.Synced | nbs/__init__.py:69-91 | defines a whole `sync` as a value: counters from zero, the host loop, then garbage collection when `cleanup` is set. `Nbs.NetBoxScanner.Sync` is proved equal to it; `ReconcileProperties.SyncCounts`, `NoCleanupDeletesNothing`, `SyncIdempotent` and `FirstSyncCreatesAll` state its properties |
| Nbs.NetBoxScanner.constructor | nbs/__init__.py:10-19 | keeps the store, hosts, tag and cleanup flag; all five counters start at 0 |
| Nbs.NetBoxScanner.SyncHost | nbs/__init__.py:21-57 | store and counters become exactly `HostStep` of the old ones; the result is false iff the address was duplicated |
| Nbs.NetBoxScanner.GarbageCollector | nbs/__init__.py:59-67 | the loop over the tagged records leaves store and counters exactly as `Collect` says |
| Nbs.NetBoxScanner.Sync | nbs/__init__.py:69-91 | resets the counters, upserts every host in order, collects when `cleanup` is set; the result is `Synced` of the initial store, and the return value is true |
| ReconcileProperties.UpsertFrame | nbs/__init__.py:34-55 | an upsert of a bare host keeps every record, address and tag list. It changes no record at another address, and any added record sits at the host's address |
| ReconcileProperties.UpsertAllCounts | nbs/__init__.py:77-78 | the upsert loop raises unchanged + created + updated + errors by the number of hosts and leaves `deleted` alone |
| ReconcileProperties.CollectStats | nbs/__init__.py:67 | garbage collection moves only `deleted`, by the number of stale records |
| ReconcileProperties.SyncCounts | nbs/__init__.py:73-81 | after a sync the four upsert counters sum to the number of hosts. `deleted` is the number of records stale after the upsert loop when `cleanup` is set, and 0 otherwise |
| ReconcileProperties.UpsertKeeps | nbs/__init__.py:34-55 | one upsert deletes no record and changes no address or tag list |
| ReconcileProperties.UpsertAllKeeps | nbs/__init__.py:77-78 | the same for the whole upsert loop |
| ReconcileProperties.NoCleanupDeletesNothing | nbs/__init__.py:80-81 | without cleanup a sync deletes no record and `deleted` stays 0 |
| ReconcileProperties.UpsertKeepsUntagged | nbs/__init__.py:34-55 | one upsert leaves every record without the tag exactly as it was |
| ReconcileProperties.UpsertAllKeepsUntagged | nbs/__init__.py:77-78 | the same for the whole upsert loop |
| ReconcileProperties.SyncKeepsUntagged | nbs/__init__.py:69-91 | a sync, with or without cleanup, neither changes nor deletes any record that lacks the tag |
| ReconcileProperties.SyncDeletesStale | nbs/__init__.py:59-81 | a sync with cleanup deletes every tagged record whose address part is no host's address in the store it starts from |
| ReconcileProperties.UpsertAllFrame | nbs/__init__.py:77-78 | the upsert loop over bare hosts keeps every record and tag list. It changes nothing at undesired addresses and adds records only at desired ones |
| ReconcileProperties.UpsertSettles | nbs/__init__.py:34-55 | upserting a bare host whose address is not duplicated in the store leaves exactly one record at its address. That record is untagged or carries the host's description |
| ReconcileProperties.UpsertKeepsSettled | nbs/__init__.py:34-55 | upserting a host whose address has no '/' leaves hosts at other addresses settled |
| ReconcileProperties.SettleLast | nbs/__init__.py:77-78 | in a store whose ids are below its next id, upserting one more host settles it and keeps the earlier hosts settled, provided the host's address has no '/', is used by no earlier host and is not duplicated in the store |
| ReconcileProperties.UpsertAllSettles | nbs/__init__.py:77-78 | with unique bare hosts and no duplicate in the store, the upsert loop settles every host |
| ReconcileProperties.SettledUnchanged | nbs/__init__.py:42-47 | when every host is settled, the upsert loop changes nothing and counts every host unchanged |
| ReconcileProperties.CollectKeepsSettled | nbs/__init__.py:59-67 | garbage collection keeps settled hosts settled and leaves nothing stale |
| ReconcileProperties.SyncIdempotent | nbs/__init__.py:69-91 | with unique bare hosts and no duplicate in the store, the first sync settles every host. A second sync changes nothing and counts unchanged = number of hosts, every other counter 0 |
| ReconcileProperties.FreshUpsertAll | nbs/__init__.py:48-55 | hosts with unique addresses without '/', none of which matches a record in the store, all count as created, and nothing else is counted |
| ReconcileProperties.FirstSyncCreatesAll | nbs/__init__.py:69-91 | syncing unique bare hosts into an empty store gives created = number of hosts and every other counter 0 |
| Scenarios.GatewayAndDns | nbs/__init__.py:69-91 | 10.0.0.1 Gateway and 10.0.0.2 DNS into an empty store with cleanup: the first sync counts created 2, the second sync counts unchanged 2 and changes nothing |
| Scenarios.UpdateOnly | nbs/__init__.py:34-41 | a tagged record with another description becomes the host's description and counts one update |
| Scenarios.CreateIntoEmpty | nbs/__init__.py:48-55 | into an empty store a host is created under the next id with tags `[tag]` |
| Scenarios.StaleRecord | nbs/__init__.py:59-67 | a tagged record at `address/prefix` that no host wants is deleted by a sync with cleanup (`deleted` 1) and kept by one without (`deleted` 0) |
| Scenarios.StaleTenNine | nbs/__init__.py:59-67 | the same for a record at 10.0.0.9/32 next to the host 10.0.0.1 |
| Scenarios.DuplicateHosts | nbs/__init__.py:34-41 | two hosts with one address and different descriptions, synced without cleanup: the first sync creates the record and rewrites it once (created 1, updated 1); every later sync rewrites it twice, so a second sync still counts updated 2 |
| Scenarios.PrefixedHostCollected | nbs/__init__.py:59-67 | a host given as `address/prefix`, synced with cleanup into an empty store, is created and then deleted by the same sync |

## Left out

- The pynetbox client is not modelled (nbs/__init__.py:9). Nor are TLS verification, tokens or the HTTP transport. The store is the in-memory class `IpStore.IpAddresses`, handed to the scanner's constructor.
- Logging (nbs/__init__.py:30, 40, 43, 46, 54, 66, 76, 83-89) is output only and is not modelled.
- Failures of `create`, `save` or `delete` at the remote are not modelled. The code does not catch them: they propagate out of `sync_host` or `garbage_collector`. Such a failure is not counted in `errors`. The store calls in the model always succeed.
- Address matching in pynetbox's `get(address=...)` is not modelled. The match is exact on the address part of the stored address. So a host address containing '/' never matches any record (`IpStore.SlashNeverMatches`), where NetBox might match it. The same goes for `str(nbhost)` at nbs/__init__.py:63: it is the record's stored address, which may carry a `/prefix`. Tags are modelled as a sequence of tag names.
- Nbs.NetBoxScanner.GarbageCollector: the tagged records are taken as a set, in an unspecified order. pynetbox yields them in the server's order. The result does not depend on the order.
- `sync` resets the counters with a loop over the dictionary keys (nbs/__init__.py:73-74). The model does this with one assignment of `Zero`, since the five keys are fixed.
- `hosts`, `tag` and `cleanup` are never reassigned in the source, so they are `const` fields of the scanner.
- Nbs.NetBoxScanner.Sync returns true, as the code does. The counters stay in the `stats` field and are not returned.
- ReconcileProperties.SyncIdempotent demands four things of its inputs; two of them are shown necessary in `Scenarios`:
  1. the store's ids are below its next id (`WellFormed`);
  2. host addresses are unique — `Scenarios.DuplicateHosts` shows a second sync still updating without this;
  3. host addresses carry no `/prefix`. With cleanup this is needed in the source too: `Scenarios.PrefixedHostCollected` shows a prefixed host deleted by the same sync that created it. Without cleanup it is needed only because of the model's lookup: a query containing '/' never matches (`IpStore.SlashNeverMatches`), so such a host is created again on every sync, whereas NetBox would find the record it created;
  4. no desired address is duplicated in the store.
- ReconcileProperties.UpsertKeeps, ReconcileProperties.UpsertAllKeeps, ReconcileProperties.NoCleanupDeletesNothing, ReconcileProperties.UpsertKeepsUntagged, ReconcileProperties.UpsertAllKeepsUntagged, ReconcileProperties.SyncKeepsUntagged, ReconcileProperties.SyncDeletesStale, ReconcileProperties.UpsertFrame, ReconcileProperties.UpsertAllFrame, ReconcileProperties.UpsertSettles, ReconcileProperties.UpsertKeepsSettled, ReconcileProperties.SettleLast, ReconcileProperties.UpsertAllSettles, ReconcileProperties.FreshUpsertAll and ReconcileProperties.SyncIdempotent demand that record ids are below the store's next id (`WellFormed`). Without this, a created record might overwrite an existing one.
- Python integers are unbounded, so the counters are `nat` and no width is modelled.
