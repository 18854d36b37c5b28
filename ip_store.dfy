/** The IP-address records of a NetBox instance, as the scanner uses them
    (`ipam.ip_addresses`): an in-memory store keyed by record id, with the
    lookup, filter, create, save and delete operations the scanner calls. */
module IpStore {

  /** One IP-address record. `address` is the stored string, which may carry
      a `/prefix` suffix; `tags` is the record's tag list. */
  datatype Record = Record(address: string, description: string, tags: seq<string>)

  /** The whole store as a value: the records by id, and the id the next
      created record receives. */
  datatype Remote = Remote(records: map<nat, Record>, nextId: nat)

  /** Every record id is below `nextId`, so a created record never
      overwrites an existing one. */
  ghost predicate WellFormed(remote: Remote)
  {
    forall id :: id in remote.records ==> id < remote.nextId
  }

  /** The address part of a stored address: the text before the first '/',
      or the whole string when there is none. */
  function Normalize(s: string): (r: string)
    ensures r <= s
    ensures '/' !in r
    ensures |r| < |s| ==> s[|r|] == '/'
    ensures '/' !in s ==> r == s
  {
    if s == [] || s[0] == '/' then [] else [s[0]] + Normalize(s[1..])
  }

  /** When the first '/' of `s` is at index `k`, the address part is the
      text before it. */
  lemma {:induction false} NormalizeAtSlash(s: string, k: nat)
    requires k < |s| && s[k] == '/' && '/' !in s[..k]
    ensures Normalize(s) == s[..k]
  {
    if k > 0 {
      assert s[0] in s[..k];
      assert s[1..][..k - 1] == s[1..k];
      assert forall c :: c in s[1..k] ==> c in s[..k];
      NormalizeAtSlash(s[1..], k - 1);
      assert s[..k] == [s[0]] + s[1..k];
    }
  }

  /** An address without '/' followed by a `/prefix` normalises to the address. */
  lemma NormalizeWithPrefix(address: string, prefix: string)
    requires '/' !in address
    ensures Normalize(address + "/" + prefix) == address
  {
    var s := address + "/" + prefix;
    assert s[..|address|] == address;
    NormalizeAtSlash(s, |address|);
  }

  /** The ids of the records whose normalised address is `address`. */
  function MatchIds(records: map<nat, Record>, address: string): set<nat>
  {
    set id | id in records && Normalize(records[id].address) == address
  }

  /** An address part never holds '/', so a query with a '/' matches nothing. */
  lemma SlashNeverMatches(records: map<nat, Record>, address: string)
    requires '/' in address
    ensures MatchIds(records, address) == {}
  {
    forall id | id in records
      ensures Normalize(records[id].address) != address
    {
      assert '/' !in Normalize(records[id].address);
    }
  }

  /** Outcome of looking one address up: the only matching record, no
      record, or more than one (the duplicate the client reports as an error). */
  datatype Lookup = Found(id: nat) | NotFound | Ambiguous

  lemma OnlyMember(m: set<nat>, x: nat)
    requires |m| == 1 && x in m
    ensures m == {x}
  {
    assert |m - {x}| == 0;
  }

  lemma TwoMembers(m: set<nat>)
    ensures |m| >= 2 <==> exists i, j :: i in m && j in m && i != j
  {
    if |m| >= 2 {
      var i :| i in m;
      assert |m - {i}| >= 1;
      var j :| j in m - {i};
      assert i in m && j in m && i != j;
    }
    if exists i, j :: i in m && j in m && i != j {
      var i, j :| i in m && j in m && i != j;
      assert j in m - {i};
      assert |m - {i}| >= 1;
    }
  }

  /** Lookup by exact normalised address. */
  ghost function Find(records: map<nat, Record>, address: string): (r: Lookup)
    ensures r.NotFound? <==> MatchIds(records, address) == {}
    ensures r.Found? ==> MatchIds(records, address) == {r.id}
    ensures r.Ambiguous? <==>
      exists i, j :: i in MatchIds(records, address) && j in MatchIds(records, address) && i != j
  {
    var m := MatchIds(records, address);
    TwoMembers(m);
    if |m| == 0 then NotFound
    else if |m| == 1 then
      var id :| id in m;
      OnlyMember(m, id);
      Found(id)
    else Ambiguous
  }

  /** The tagged records, by id. */
  function Tagged(records: map<nat, Record>, tag: string): (t: map<nat, Record>)
    ensures forall id :: id in t <==> id in records && tag in records[id].tags
    ensures forall id :: id in t ==> t[id] == records[id]
  {
    map id | id in records && tag in records[id].tags :: records[id]
  }

  /** The store the scanner talks to. */
  class IpAddresses {
    var records: map<nat, Record>
    var nextId: nat

    function View(): Remote
      reads this
    {
      Remote(records, nextId)
    }

    ghost predicate Valid()
      reads this
    {
      WellFormed(View())
    }

    constructor (initial: Remote)
      requires WellFormed(initial)
      ensures Valid() && View() == initial
    {
      records := initial.records;
      nextId := initial.nextId;
    }

    /** `get(address=...)`: the one record at `address`, none, or a duplicate. */
    method Get(address: string) returns (r: Lookup)
      ensures r == Find(records, address)
    {
      var matches := MatchIds(records, address);
      if |matches| == 0 {
        r := NotFound;
      } else if |matches| == 1 {
        var id :| id in matches;
        OnlyMember(matches, id);
        r := Found(id);
      } else {
        TwoMembers(matches);
        r := Ambiguous;
      }
    }

    /** `filter(tag=...)`: a snapshot of the records carrying `tag`. */
    method Filter(tag: string) returns (t: map<nat, Record>)
      ensures t == Tagged(records, tag)
    {
      t := Tagged(records, tag);
    }

    /** `create(address=..., tags=..., description=...)`: adds one record
        under a fresh id. */
    method Create(address: string, tags: seq<string>, description: string) returns (id: nat)
      requires Valid()
      modifies this
      ensures Valid()
      ensures id == old(nextId) && id !in old(records)
      ensures records == old(records)[id := Record(address, description, tags)]
      ensures nextId == old(nextId) + 1
    {
      id := nextId;
      records := records[id := Record(address, description, tags)];
      nextId := nextId + 1;
    }

    /** `record.save()`: writes a changed record back under its id. */
    method Save(id: nat, record: Record)
      requires Valid() && id in records
      modifies this
      ensures Valid()
      ensures records == old(records)[id := record] && nextId == old(nextId)
    {
      records := records[id := record];
    }

    /** `record.delete()`: removes the record with this id. */
    method Delete(id: nat)
      requires Valid() && id in records
      modifies this
      ensures Valid()
      ensures records == old(records) - {id} && nextId == old(nextId)
    {
      records := records - {id};
    }
  }
}
