/**
 * The device manager of pkg/gpu: a table of GPUs by id, filled by a mock discovery, with
 * look-ups, a bulk telemetry refresh and the registered flag. Timestamps are the caller's clock
 * reading `now`; a nil `RegisteredAt` is `None`.
 */
module Devices {
  import opened Wrappers

  datatype Device = Device(
    id: int,
    name: string,
    uuid: string,
    totalMemoryGB: real,
    usedMemoryGB: real,
    utilizationPercent: real,
    temperatureC: real,
    powerUsageW: real,
    powerLimitW: real,
    clockMHz: real,
    online: bool,
    registered: bool,
    registeredAt: Option<int>,
    lastUpdated: int)

  datatype DeviceError = DeviceNotFound(id: int)

  /** The device `Discover` reports: GPU 0, online, not registered, every unlisted field zero. */
  function MockDevice(now: int): (d: Device)
    ensures d.id == 0 && d.online && !d.registered && d.registeredAt == None
    ensures d.totalMemoryGB == 24.0 && d.usedMemoryGB == 0.0 && d.lastUpdated == now
  {
    Device(0, "NVIDIA GeForce RTX 5070 Ti", "GPU-12345678-90ab-cdef-1234-567890abcdef",
           24.0, 0.0, 0.0, 0.0, 0.0, 0.0, 0.0, true, false, None, now)
  }

  /** Every device is filed under its own id, and is registered exactly when it carries a
      registration time. */
  ghost predicate Consistent(gpus: map<int, Device>) {
    forall id :: id in gpus ==> gpus[id].id == id && (gpus[id].registered <==> gpus[id].registeredAt.Some?)
  }

  // ---------------------------------------------------------------------------------------------
  // The manager's operations as functions of the table
  // ---------------------------------------------------------------------------------------------

  function Lookup(gpus: map<int, Device>, id: int): (r: Result<Device, DeviceError>)
    ensures r.Ok? <==> id in gpus
    ensures r.Ok? ==> r.value == gpus[id]
    ensures r.Err? ==> r.error == DeviceNotFound(id)
  {
    if id in gpus then Ok(gpus[id]) else Err(DeviceNotFound(id))
  }

  /** The mock telemetry `UpdateMetrics` writes into one device. */
  function Refresh(d: Device, now: int): Device {
    d.(temperatureC := 35.0, utilizationPercent := 0.0, powerUsageW := 10.0, lastUpdated := now)
  }

  /** The table after `UpdateMetrics` has refreshed the devices `done`. */
  function RefreshedOn(gpus: map<int, Device>, done: set<int>, now: int): (r: map<int, Device>)
    ensures r.Keys == gpus.Keys
  {
    map id | id in gpus :: if id in done then Refresh(gpus[id], now) else gpus[id]
  }

  function Registering(gpus: map<int, Device>, id: int, now: int): map<int, Device>
    requires id in gpus
  {
    gpus[id := gpus[id].(registered := true, registeredAt := Some(now))]
  }

  function Unregistering(gpus: map<int, Device>, id: int): map<int, Device>
    requires id in gpus
  {
    gpus[id := gpus[id].(registered := false, registeredAt := None)]
  }

  /** `UpdateMetrics` overwrites exactly temperature, utilisation, power draw and update time:
      identity, memory, limits, clocks and registration are untouched. */
  lemma RefreshKeepsIdentity(gpus: map<int, Device>, now: int, id: int)
    requires id in gpus
    ensures var d, e := gpus[id], RefreshedOn(gpus, gpus.Keys, now)[id];
      && e.temperatureC == 35.0 && e.utilizationPercent == 0.0 && e.powerUsageW == 10.0 && e.lastUpdated == now
      && e == d.(temperatureC := e.temperatureC, utilizationPercent := e.utilizationPercent,
                 powerUsageW := e.powerUsageW, lastUpdated := e.lastUpdated)
  {
  }

  /** Refreshing twice at the same time is refreshing once. */
  lemma RefreshIdempotent(gpus: map<int, Device>, now: int)
    ensures RefreshedOn(RefreshedOn(gpus, gpus.Keys, now), gpus.Keys, now) == RefreshedOn(gpus, gpus.Keys, now)
  {
    var once := RefreshedOn(gpus, gpus.Keys, now);
    var twice := RefreshedOn(once, once.Keys, now);
    forall id | id in gpus ensures twice[id] == once[id] {
      assert once[id] == Refresh(gpus[id], now);
    }
  }

  /** `Unregister` is idempotent. */
  lemma UnregisterIdempotent(gpus: map<int, Device>, id: int)
    requires id in gpus
    ensures Unregistering(Unregistering(gpus, id), id) == Unregistering(gpus, id)
  {
  }

  /** `Unregister` after `Register` leaves the device exactly as `Unregister` alone would: the
      flag false and no registration time. */
  lemma UnregisterUndoesRegister(gpus: map<int, Device>, id: int, now: int)
    requires id in gpus
    ensures Unregistering(Registering(gpus, id, now), id) == Unregistering(gpus, id)
    ensures !Unregistering(Registering(gpus, id, now), id)[id].registered
  {
  }

  /** Re-registering only moves the registration time. */
  lemma RegisterTwice(gpus: map<int, Device>, id: int, t1: int, t2: int)
    requires id in gpus
    ensures Registering(Registering(gpus, id, t1), id, t2) == Registering(gpus, id, t2)
  {
  }

  /** Every operation keeps the table consistent. */
  lemma OperationsKeepConsistent(gpus: map<int, Device>, id: int, now: int)
    requires Consistent(gpus)
    ensures Consistent(gpus[MockDevice(now).id := MockDevice(now)])
    ensures Consistent(RefreshedOn(gpus, gpus.Keys, now))
    ensures id in gpus ==> Consistent(Registering(gpus, id, now)) && Consistent(Unregistering(gpus, id))
  {
  }

  // ---------------------------------------------------------------------------------------------
  // The manager
  // ---------------------------------------------------------------------------------------------

  class Manager {
    var gpus: map<int, Device>

    ghost predicate Valid()
      reads this
    {
      Consistent(gpus)
    }

    /** `NewManager`: no devices. */
    constructor ()
      ensures Valid() && gpus == map[]
    {
      gpus := map[];
    }

    /** Files the mock device under its id, replacing any device already there, and returns the
        list it discovered. Its error result is always nil and is not modelled. */
    method Discover(now: int) returns (found: seq<Device>)
      requires Valid()
      modifies this
      ensures Valid()
      ensures found == [MockDevice(now)]
      ensures gpus == old(gpus)[0 := MockDevice(now)]
    {
      found := [MockDevice(now)];
      OperationsKeepConsistent(gpus, 0, now);
      for i := 0 to |found|
        invariant gpus == if i == 0 then old(gpus) else old(gpus)[0 := MockDevice(now)]
      {
        gpus := gpus[found[i].id := found[i]];
      }
    }

    method GetGPU(id: int) returns (r: Result<Device, DeviceError>)
      ensures r == Lookup(gpus, id)
    {
      if id !in gpus {
        return Err(DeviceNotFound(id));
      }
      r := Ok(gpus[id]);
    }

    /** Every device once, in map iteration order (which Go leaves unspecified). */
    method GetAllGPUs() returns (all: seq<Device>)
      requires Valid()
      ensures |all| == |gpus|
      ensures forall i :: 0 <= i < |all| ==> all[i].id in gpus && gpus[all[i].id] == all[i]
      ensures forall i, j :: 0 <= i < j < |all| ==> all[i].id != all[j].id
      ensures forall id :: id in gpus ==> exists i :: 0 <= i < |all| && all[i].id == id
    {
      all := [];
      var remaining := gpus.Keys;
      while remaining != {}
        invariant remaining <= gpus.Keys
        invariant Listed(gpus, remaining, all)
        decreases remaining
      {
        // A non-empty set has a member: the empty-set case split is what the solver needs.
        if forall x :: x !in remaining { assert false; }
        var id :| id in remaining;
        ListStep(gpus, remaining, all, id);
        all := all + [gpus[id]];
        remaining := remaining - {id};
      }
      assert gpus.Keys - remaining == gpus.Keys;
    }

    /** Writes the mock telemetry into every device; always succeeds. */
    method UpdateMetrics(now: int) returns (err: Option<string>)
      requires Valid()
      modifies this
      ensures Valid()
      ensures err == None
      ensures gpus == RefreshedOn(old(gpus), old(gpus).Keys, now)
    {
      ghost var start := gpus;
      var remaining := gpus.Keys;
      while remaining != {}
        invariant remaining <= start.Keys
        invariant gpus == RefreshedOn(start, start.Keys - remaining, now)
        decreases remaining
      {
        // A non-empty set has a member: the empty-set case split is what the solver needs.
        if forall x :: x !in remaining { assert false; }
        var id :| id in remaining;
        gpus := gpus[id := Refresh(gpus[id], now)];
        remaining := remaining - {id};
      }
      OperationsKeepConsistent(start, 0, now);
      err := None;
    }

    /** Marks the device registered now; an unknown id fails and nothing changes. */
    method Register(id: int, now: int) returns (r: Result<(), DeviceError>)
      requires Valid()
      modifies this
      ensures Valid()
      ensures id !in old(gpus) ==> r == Err(DeviceNotFound(id)) && gpus == old(gpus)
      ensures id in old(gpus) ==> r == Ok(()) && gpus == Registering(old(gpus), id, now)
    {
      if id !in gpus {
        return Err(DeviceNotFound(id));
      }
      OperationsKeepConsistent(gpus, id, now);
      var d := gpus[id];
      gpus := gpus[id := d.(registered := true, registeredAt := Some(now))];
      r := Ok(());
    }

    /** Marks the device unregistered and clears its registration time; an unknown id fails. */
    method Unregister(id: int) returns (r: Result<(), DeviceError>)
      requires Valid()
      modifies this
      ensures Valid()
      ensures id !in old(gpus) ==> r == Err(DeviceNotFound(id)) && gpus == old(gpus)
      ensures id in old(gpus) ==> r == Ok(()) && gpus == Unregistering(old(gpus), id)
    {
      if id !in gpus {
        return Err(DeviceNotFound(id));
      }
      OperationsKeepConsistent(gpus, id, 0);
      var d := gpus[id];
      gpus := gpus[id := d.(registered := false, registeredAt := None)];
      r := Ok(());
    }
  }

  /** The state of `GetAllGPUs`'s scan: the devices of the visited ids, each once. */
  ghost predicate Listed(gpus: map<int, Device>, remaining: set<int>, all: seq<Device>) {
    var done := gpus.Keys - remaining;
    && remaining <= gpus.Keys
    && |all| == |done|
    && (forall i :: 0 <= i < |all| ==> all[i].id in done && gpus[all[i].id] == all[i])
    && (forall i, j :: 0 <= i < j < |all| ==> all[i].id != all[j].id)
    && (forall id :: id in done ==> exists i :: 0 <= i < |all| && all[i].id == id)
  }

  lemma ListStep(gpus: map<int, Device>, remaining: set<int>, all: seq<Device>, id: int)
    requires Consistent(gpus)
    requires Listed(gpus, remaining, all)
    requires id in remaining
    ensures Listed(gpus, remaining - {id}, all + [gpus[id]])
  {
    var done := gpus.Keys - remaining;
    assert gpus.Keys - (remaining - {id}) == done + {id};
    var all' := all + [gpus[id]];
    forall x | x in done + {id} ensures exists i :: 0 <= i < |all'| && all'[i].id == x {
      if x == id {
        assert all'[|all|].id == id;
      } else {
        var i :| 0 <= i < |all| && all[i].id == x;
        assert all'[i] == all[i];
      }
    }
  }
}
