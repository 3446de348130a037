/**
 * The registration ledger of pkg/registration: GPU records filed under the decimal text of their
 * id, with registration, removal, look-up, full scans by pool and by tag, and the two field
 * updates. Timestamps are the caller's clock reading `now`; Go's zero time is `None`.
 */
module Registration {
  import opened Wrappers
  import opened Decimal

  datatype GPURecord = GPURecord(
    gpuId: int,
    uuid: string,
    name: string,
    pool: string,
    tags: seq<string>,
    metadata: map<string, string>,
    registeredAt: int,
    registeredBy: string,
    lastHealthCheck: Option<int>,
    status: string)

  datatype RegistryError =
    | AlreadyRegistered(gpuId: int)
    | NotRegistered(gpuId: int)
    | NotFound(gpuId: int)

  /** `fmt.Sprintf("%d", gpuID)`, the ledger's key. */
  function Key(gpuId: int): string {
    Itoa(gpuId)
  }

  lemma KeyInjective(a: int, b: int)
    requires Key(a) == Key(b)
    ensures a == b
  {
    ItoaInjective(a, b);
  }

  /** The record `Register` files: the caller's fields, registered now by "gputl", status
      "active", never health-checked. */
  function NewRecord(gpuId: int, uuid: string, name: string, pool: string, tags: seq<string>,
                     metadata: map<string, string>, now: int): (r: GPURecord)
    ensures r.gpuId == gpuId && r.uuid == uuid && r.name == name && r.pool == pool
    ensures r.tags == tags && r.metadata == metadata && r.registeredAt == now
    ensures r.registeredBy == "gputl" && r.status == "active" && r.lastHealthCheck == None
  {
    GPURecord(gpuId, uuid, name, pool, tags, metadata, now, "gputl", None, "active")
  }

  /** The record under `k` is filed under the decimal text of its own id. */
  ghost predicate FiledUnder(records: map<string, GPURecord>, k: string) {
    k in records && k == Key(records[k].gpuId)
  }

  /** Every record is filed under the decimal text of its own id. (The trigger keeps the decimal
      text out of proofs that do not ask for it.) */
  ghost predicate KeysMatch(records: map<string, GPURecord>) {
    forall k {:trigger FiledUnder(records, k)} :: k in records ==> FiledUnder(records, k)
  }

  // ---------------------------------------------------------------------------------------------
  // The ledger operations as functions of the record map
  // ---------------------------------------------------------------------------------------------

  /** What `Get(gpuId)` returns. */
  function Lookup(records: map<string, GPURecord>, gpuId: int): (r: Result<GPURecord, RegistryError>)
    ensures r.Ok? <==> Key(gpuId) in records
    ensures r.Ok? ==> r.value == records[Key(gpuId)]
    ensures r.Err? ==> r.error == NotFound(gpuId)
  {
    if Key(gpuId) in records then Ok(records[Key(gpuId)]) else Err(NotFound(gpuId))
  }

  /** The record map after a successful `Register`. */
  function Registered(records: map<string, GPURecord>, gpuId: int, uuid: string, name: string, pool: string,
                      tags: seq<string>, metadata: map<string, string>, now: int): map<string, GPURecord>
  {
    records[Key(gpuId) := NewRecord(gpuId, uuid, name, pool, tags, metadata, now)]
  }

  /** The record map after a successful `Unregister`. */
  function Removed(records: map<string, GPURecord>, gpuId: int): map<string, GPURecord> {
    records - {Key(gpuId)}
  }

  /** The record map after a successful `UpdateStatus`: that record's status and health-check
      time are replaced. */
  function WithStatus(records: map<string, GPURecord>, gpuId: int, status: string, now: int): map<string, GPURecord>
    requires Key(gpuId) in records
  {
    var old_ := records[Key(gpuId)];
    records[Key(gpuId) := old_.(status := status, lastHealthCheck := Some(now))]
  }

  /** The record map after a successful `UpdateLastHealthCheck`. */
  function WithHealthCheck(records: map<string, GPURecord>, gpuId: int, now: int): map<string, GPURecord>
    requires Key(gpuId) in records
  {
    var old_ := records[Key(gpuId)];
    records[Key(gpuId) := old_.(lastHealthCheck := Some(now))]
  }

  /** After registering `gpuId`, looking it up gives the new record, and every other id looks up
      as before. */
  lemma LookupAfterRegister(records: map<string, GPURecord>, gpuId: int, uuid: string, name: string, pool: string,
                            tags: seq<string>, metadata: map<string, string>, now: int, other: int)
    ensures Lookup(Registered(records, gpuId, uuid, name, pool, tags, metadata, now), other) ==
            if other == gpuId then Ok(NewRecord(gpuId, uuid, name, pool, tags, metadata, now))
            else Lookup(records, other)
  {
    if other != gpuId && Key(other) == Key(gpuId) {
      KeyInjective(other, gpuId);
    }
  }

  /** After unregistering `gpuId` it is not found, and every other id looks up as before. */
  lemma LookupAfterRemove(records: map<string, GPURecord>, gpuId: int, other: int)
    ensures Lookup(Removed(records, gpuId), other) ==
            if other == gpuId then Err(NotFound(gpuId)) else Lookup(records, other)
  {
    if other != gpuId && Key(other) == Key(gpuId) {
      KeyInjective(other, gpuId);
    }
  }

  /** Unregistering a GPU that was just registered on a ledger without it restores the ledger. */
  lemma RemoveUndoesRegister(records: map<string, GPURecord>, gpuId: int, uuid: string, name: string, pool: string,
                             tags: seq<string>, metadata: map<string, string>, now: int)
    requires Key(gpuId) !in records
    ensures Removed(Registered(records, gpuId, uuid, name, pool, tags, metadata, now), gpuId) == records
  {
    var after := Removed(Registered(records, gpuId, uuid, name, pool, tags, metadata, now), gpuId);
    assert after.Keys == records.Keys;
  }

  /** `UpdateStatus` changes only the status and health-check time of its own record. */
  lemma LookupAfterStatus(records: map<string, GPURecord>, gpuId: int, status: string, now: int, other: int)
    requires Key(gpuId) in records
    ensures Lookup(WithStatus(records, gpuId, status, now), other) ==
            if other == gpuId
            then Ok(records[Key(gpuId)].(status := status, lastHealthCheck := Some(now)))
            else Lookup(records, other)
  {
    if other != gpuId && Key(other) == Key(gpuId) {
      KeyInjective(other, gpuId);
    }
  }

  /** `UpdateLastHealthCheck` changes only the health-check time of its own record. */
  lemma LookupAfterHealthCheck(records: map<string, GPURecord>, gpuId: int, now: int, other: int)
    requires Key(gpuId) in records
    ensures Lookup(WithHealthCheck(records, gpuId, now), other) ==
            if other == gpuId then Ok(records[Key(gpuId)].(lastHealthCheck := Some(now)))
            else Lookup(records, other)
  {
    if other != gpuId && Key(other) == Key(gpuId) {
      KeyInjective(other, gpuId);
    }
  }

  /** Registering keeps every record filed under its own id. */
  lemma RegisteredKeepsKeysMatch(records: map<string, GPURecord>, gpuId: int, uuid: string, name: string,
                                 pool: string, tags: seq<string>, metadata: map<string, string>, now: int)
    requires KeysMatch(records)
    ensures KeysMatch(Registered(records, gpuId, uuid, name, pool, tags, metadata, now))
  {
    var added := Registered(records, gpuId, uuid, name, pool, tags, metadata, now);
    forall k | k in added ensures FiledUnder(added, k) {
      if k != Key(gpuId) {
        assert FiledUnder(records, k);
      }
    }
  }

  /** Removing a record keeps the others filed under their own ids. */
  lemma RemovedKeepsKeysMatch(records: map<string, GPURecord>, gpuId: int)
    requires KeysMatch(records)
    ensures KeysMatch(Removed(records, gpuId))
  {
    var removed := Removed(records, gpuId);
    forall k | k in removed ensures FiledUnder(removed, k) {
      assert FiledUnder(records, k);
    }
  }

  /** The field updates keep every record filed under its own id. */
  lemma UpdatesKeepKeysMatch(records: map<string, GPURecord>, gpuId: int, status: string, now: int)
    requires KeysMatch(records)
    requires Key(gpuId) in records
    ensures KeysMatch(WithStatus(records, gpuId, status, now))
    ensures KeysMatch(WithHealthCheck(records, gpuId, now))
  {
    assert FiledUnder(records, Key(gpuId));
    var statused := WithStatus(records, gpuId, status, now);
    forall k | k in statused ensures FiledUnder(statused, k) {
      assert FiledUnder(records, k);
    }
    var checked := WithHealthCheck(records, gpuId, now);
    forall k | k in checked ensures FiledUnder(checked, k) {
      assert FiledUnder(records, k);
    }
  }

  // ---------------------------------------------------------------------------------------------
  // Scans
  // ---------------------------------------------------------------------------------------------

  /** The keys of the records in `pool`. */
  function PoolKeys(records: map<string, GPURecord>, pool: string): set<string> {
    set k | k in records && records[k].pool == pool
  }

  /** The keys of the records tagged `tag`. */
  function TagKeys(records: map<string, GPURecord>, tag: string): set<string> {
    set k | k in records && tag in records[k].tags
  }

  /** `found` lists exactly the records filed under the keys `which`, each once, in some order. */
  ghost predicate IsSelection(records: map<string, GPURecord>, which: set<string>, found: seq<GPURecord>) {
    && |found| == |which * records.Keys|
    && (forall i :: 0 <= i < |found| ==>
          Key(found[i].gpuId) in which && Key(found[i].gpuId) in records && records[Key(found[i].gpuId)] == found[i])
    && (forall i, j :: 0 <= i < j < |found| ==> found[i].gpuId != found[j].gpuId)
    && (forall k :: k in which && k in records ==> exists i :: 0 <= i < |found| && Key(found[i].gpuId) == k)
  }

  /** The state of a scan: `picked` are the keys, among the `done` ones, that were wanted, each
      once, and `found` their records in the same order. */
  ghost predicate Picked(records: map<string, GPURecord>, which: set<string>, done: set<string>,
                         found: seq<GPURecord>, picked: seq<string>) {
    && |picked| == |found| == |which * done|
    && (forall i :: 0 <= i < |picked| ==> picked[i] in which * done && picked[i] in records && records[picked[i]] == found[i])
    && (forall i, j :: 0 <= i < j < |picked| ==> picked[i] != picked[j])
    && (forall k :: k in which * done ==> k in picked)
  }

  /** A scan with the keys `remaining` still to visit: `Picked` holds for the visited ones. */
  ghost predicate Scanning(records: map<string, GPURecord>, which: set<string>, remaining: set<string>,
                           found: seq<GPURecord>, picked: seq<string>) {
    remaining <= records.Keys && Picked(records, which, records.Keys - remaining, found, picked)
  }

  /** A wanted key joins the picked ones, at the end. */
  lemma PickWanted(records: map<string, GPURecord>, which: set<string>, done: set<string>,
                   found: seq<GPURecord>, picked: seq<string>, k: string)
    requires Picked(records, which, done, found, picked)
    requires k in records && k in which && k !in done
    ensures Picked(records, which, done + {k}, found + [records[k]], picked + [k])
  {
    var done', found', picked' := done + {k}, found + [records[k]], picked + [k];
    assert which * done' == which * done + {k};
    assert k !in which * done;
    forall i | 0 <= i < |picked'|
      ensures picked'[i] in which * done' && picked'[i] in records && records[picked'[i]] == found'[i]
    {
      if i < |picked| {
        assert picked'[i] == picked[i] && found'[i] == found[i];
      }
    }
    forall i, j | 0 <= i < j < |picked'| ensures picked'[i] != picked'[j] {
      if j == |picked| {
        assert picked[i] in which * done;
      } else {
        assert picked'[i] == picked[i] && picked'[j] == picked[j];
      }
    }
    forall x | x in which * done' ensures x in picked' {
      if x != k {
        assert x in which * done;
        var i :| 0 <= i < |picked| && picked[i] == x;
        assert picked'[i] == x;
      } else {
        assert picked'[|picked|] == k;
      }
    }
  }

  /** An unwanted key changes nothing but the visited set. */
  lemma PickSkipped(records: map<string, GPURecord>, which: set<string>, done: set<string>,
                    found: seq<GPURecord>, picked: seq<string>, k: string)
    requires Picked(records, which, done, found, picked)
    requires k !in which
    ensures Picked(records, which, done + {k}, found, picked)
  {
    assert which * (done + {k}) == which * done;
  }

  /** One more record of a scan: it is appended if (and only if) its key is wanted. */
  lemma SelectStep(records: map<string, GPURecord>, which: set<string>, remaining: set<string>,
                   found: seq<GPURecord>, picked: seq<string>, k: string, wanted: bool)
    requires Scanning(records, which, remaining, found, picked)
    requires k in remaining
    requires wanted == (k in which)
    ensures Scanning(records, which, remaining - {k}, found + (if wanted then [records[k]] else []),
                     picked + if wanted then [k] else [])
  {
    var done := records.Keys - remaining;
    assert records.Keys - (remaining - {k}) == done + {k};
    if wanted {
      PickWanted(records, which, done, found, picked, k);
    } else {
      PickSkipped(records, which, done, found, picked, k);
      assert found + [] == found && picked + [] == picked;
    }
  }

  /** A finished scan is a selection. */
  lemma PickedSelection(records: map<string, GPURecord>, which: set<string>, found: seq<GPURecord>,
                        picked: seq<string>)
    requires KeysMatch(records)
    requires Scanning(records, which, {}, found, picked)
    ensures IsSelection(records, which, found)
  {
    assert records.Keys - {} == records.Keys;
    forall i | 0 <= i < |found| ensures picked[i] == Key(found[i].gpuId) {
      assert FiledUnder(records, picked[i]);
    }
    forall k | k in which && k in records ensures exists i :: 0 <= i < |found| && Key(found[i].gpuId) == k {
      assert k in which * records.Keys;
      var i :| 0 <= i < |picked| && picked[i] == k;
      assert Key(found[i].gpuId) == k;
    }
  }

  /** A selection of every key holds every record, once each. */
  lemma ListHoldsEveryRecord(records: map<string, GPURecord>, found: seq<GPURecord>)
    requires IsSelection(records, records.Keys, found)
    ensures |found| == |records|
    ensures forall r :: r in found <==> r in records.Values
  {
    assert records.Keys * records.Keys == records.Keys;
    forall r | r in records.Values ensures r in found {
      var k :| k in records && records[k] == r;
      var i :| 0 <= i < |found| && Key(found[i].gpuId) == k;
    }
  }

  /** `FindByPool` finds exactly the records in the pool. */
  lemma PoolSelectionIsExact(records: map<string, GPURecord>, pool: string, found: seq<GPURecord>)
    requires IsSelection(records, PoolKeys(records, pool), found)
    ensures forall r :: r in found <==> r in records.Values && r.pool == pool
  {
    forall r | r in records.Values && r.pool == pool ensures r in found {
      var k :| k in records && records[k] == r;
      var i :| 0 <= i < |found| && Key(found[i].gpuId) == k;
    }
  }

  /** `FindByTag` finds exactly the records carrying the tag. */
  lemma TagSelectionIsExact(records: map<string, GPURecord>, tag: string, found: seq<GPURecord>)
    requires IsSelection(records, TagKeys(records, tag), found)
    ensures forall r :: r in found <==> r in records.Values && tag in r.tags
  {
    forall r | r in records.Values && tag in r.tags ensures r in found {
      var k :| k in records && records[k] == r;
      var i :| 0 <= i < |found| && Key(found[i].gpuId) == k;
    }
  }

  // ---------------------------------------------------------------------------------------------
  // The ledger
  // ---------------------------------------------------------------------------------------------

  class Registry {
    var records: map<string, GPURecord>

    ghost predicate Valid()
      reads this
    {
      KeysMatch(records)
    }

    /** `NewRegistry`: an empty ledger. */
    constructor ()
      ensures Valid() && records == map[]
    {
      records := map[];
    }

    /** Files a new record under the id's decimal text; an id already present is refused and the
        ledger is left as it was. */
    method Register(gpuId: int, uuid: string, name: string, pool: string, tags: seq<string>,
                    metadata: map<string, string>, now: int) returns (r: Result<(), RegistryError>)
      requires Valid()
      modifies this
      ensures Valid()
      ensures Key(gpuId) in old(records) ==> r == Err(AlreadyRegistered(gpuId)) && records == old(records)
      ensures Key(gpuId) !in old(records) ==>
                r == Ok(()) && records == Registered(old(records), gpuId, uuid, name, pool, tags, metadata, now)
    {
      var key := Key(gpuId);
      if key in records {
        return Err(AlreadyRegistered(gpuId));
      }
      RegisteredKeepsKeysMatch(records, gpuId, uuid, name, pool, tags, metadata, now);
      records := records[key := NewRecord(gpuId, uuid, name, pool, tags, metadata, now)];
      r := Ok(());
    }

    /** Removes the record of `gpuId`; an absent id is refused and nothing changes. */
    method Unregister(gpuId: int) returns (r: Result<(), RegistryError>)
      requires Valid()
      modifies this
      ensures Valid()
      ensures Key(gpuId) !in old(records) ==> r == Err(NotRegistered(gpuId)) && records == old(records)
      ensures Key(gpuId) in old(records) ==> r == Ok(()) && records == Removed(old(records), gpuId)
    {
      var key := Key(gpuId);
      if key !in records {
        return Err(NotRegistered(gpuId));
      }
      RemovedKeepsKeysMatch(records, gpuId);
      records := records - {key};
      r := Ok(());
    }

    method Get(gpuId: int) returns (r: Result<GPURecord, RegistryError>)
      ensures r == Lookup(records, gpuId)
    {
      var key := Key(gpuId);
      if key !in records {
        return Err(NotFound(gpuId));
      }
      r := Ok(records[key]);
    }

    /** Every record once, in map iteration order (which Go leaves unspecified). */
    method List() returns (found: seq<GPURecord>)
      requires Valid()
      ensures IsSelection(records, records.Keys, found)
    {
      ghost var picked: seq<string> := [];
      found := [];
      var remaining := records.Keys;
      while remaining != {}
        invariant Scanning(records, records.Keys, remaining, found, picked)
        decreases remaining
      {
        var k :| k in remaining;
        SelectStep(records, records.Keys, remaining, found, picked, k, true);
        found := found + [records[k]];
        remaining, picked := remaining - {k}, picked + [k];
      }
      PickedSelection(records, records.Keys, found, picked);
    }

    /** The records whose pool is `pool`, each once. */
    method FindByPool(pool: string) returns (found: seq<GPURecord>)
      requires Valid()
      ensures IsSelection(records, PoolKeys(records, pool), found)
    {
      ghost var which := PoolKeys(records, pool);
      ghost var picked: seq<string> := [];
      found := [];
      var remaining := records.Keys;
      while remaining != {}
        invariant Scanning(records, which, remaining, found, picked)
        decreases remaining
      {
        var k :| k in remaining;
        var record := records[k];
        ghost var wanted := record.pool == pool;
        SelectStep(records, which, remaining, found, picked, k, wanted);
        if record.pool == pool {
          found := found + [record];
        }
        remaining, picked := remaining - {k}, picked + if wanted then [k] else [];
      }
      PickedSelection(records, which, found, picked);
    }

    /** The records tagged `tag`, each once however often the tag repeats (the scan of a record's
        tags stops at the first match). */
    method FindByTag(tag: string) returns (found: seq<GPURecord>)
      requires Valid()
      ensures IsSelection(records, TagKeys(records, tag), found)
    {
      ghost var which := TagKeys(records, tag);
      ghost var picked: seq<string> := [];
      found := [];
      var remaining := records.Keys;
      while remaining != {}
        invariant Scanning(records, which, remaining, found, picked)
        decreases remaining
      {
        var k :| k in remaining;
        var record := records[k];
        ghost var wanted := tag in record.tags;
        SelectStep(records, which, remaining, found, picked, k, wanted);
        found := AppendIfTagged(found, record, tag);
        remaining, picked := remaining - {k}, picked + if wanted then [k] else [];
      }
      PickedSelection(records, which, found, picked);
    }

    /** The inner loop of `FindByTag`: scan the record's tags and append the record at the first
        match, then stop. */
    static method AppendIfTagged(found: seq<GPURecord>, record: GPURecord, tag: string)
      returns (result: seq<GPURecord>)
      ensures result == found + if tag in record.tags then [record] else []
    {
      result := found;
      var j := 0;
      while j < |record.tags|
        invariant 0 <= j <= |record.tags|
        invariant tag !in record.tags[..j]
        invariant result == found
      {
        if record.tags[j] == tag {
          result := result + [record];
          return;
        }
        j := j + 1;
      }
      assert record.tags[..j] == record.tags;
    }

    /** Sets the status of `gpuId`'s record and stamps its health-check time; absent ids fail. */
    method UpdateStatus(gpuId: int, status: string, now: int) returns (r: Result<(), RegistryError>)
      requires Valid()
      modifies this
      ensures Valid()
      ensures Key(gpuId) !in old(records) ==> r == Err(NotFound(gpuId)) && records == old(records)
      ensures Key(gpuId) in old(records) ==> r == Ok(()) && records == WithStatus(old(records), gpuId, status, now)
    {
      var key := Key(gpuId);
      if key !in records {
        return Err(NotFound(gpuId));
      }
      var record := records[key];
      UpdatesKeepKeysMatch(records, gpuId, status, now);
      records := records[key := record.(status := status, lastHealthCheck := Some(now))];
      r := Ok(());
    }

    /** Stamps the health-check time of `gpuId`'s record; absent ids fail. */
    method UpdateLastHealthCheck(gpuId: int, now: int) returns (r: Result<(), RegistryError>)
      requires Valid()
      modifies this
      ensures Valid()
      ensures Key(gpuId) !in old(records) ==> r == Err(NotFound(gpuId)) && records == old(records)
      ensures Key(gpuId) in old(records) ==> r == Ok(()) && records == WithHealthCheck(old(records), gpuId, now)
    {
      var key := Key(gpuId);
      if key !in records {
        return Err(NotFound(gpuId));
      }
      var record := records[key];
      UpdatesKeepKeysMatch(records, gpuId, "", now);
      records := records[key := record.(lastHealthCheck := Some(now))];
      r := Ok(());
    }
  }
}
