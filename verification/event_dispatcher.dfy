/**
 * The device snapshot of the event dispatcher (kaptivate/event_dispatcher.cpp).
 * scanDevices empties the keyboard and mouse maps and refills them from the
 * platform's raw input device list. The list and each device-name lookup are
 * Win32 results, so they are inputs here: one RawDevice per list entry,
 * carrying what the name queries would report for that entry.
 */
module EventDispatchers {
  import opened Events

  /** RAWINPUTDEVICELIST.dwType values. */
  const RIM_TYPEMOUSE: uint32 := 0
  const RIM_TYPEKEYBOARD: uint32 := 1
  const RIM_TYPEHID: uint32 := 2

  /** The error return of GetRawInputDeviceInfo, (UINT)-1. */
  const INFO_ERROR: uint32 := 0xFFFF_FFFF

  /**
   * What the two GetRawInputDeviceInfo(RIDI_DEVICENAME) calls and the buffer
   * allocation report for one entry: the size query's return value and size,
   * whether the buffer was allocated, the fetch's return value, and the name
   * the buffer then holds.
   */
  datatype NameQuery = NameQuery(
    sizeRet: uint32,
    pcbSize: uint32,
    bufferAllocated: bool,
    fetchRet: uint32,
    name: string)

  /** One entry of the raw input device list. */
  datatype RawDevice = RawDevice(hDevice: Handle, dwType: uint32, query: NameQuery)

  /** The name fetch's guard as the source writes it: an unsigned `> 0`. */
  predicate FetchAcceptedAsWritten(fetchRet: uint32)
  {
    fetchRet > 0
  }

  /** The fetch succeeded: it copied something and did not return (UINT)-1. */
  predicate FetchSucceeded(fetchRet: uint32)
  {
    fetchRet != 0 && fetchRet != INFO_ERROR
  }

  /**
   * The unsigned comparison lets the (UINT)-1 error return through; every
   * return the corrected guard accepts, the written one accepts too.
   */
  lemma FetchErrorAcceptedAsWritten()
    ensures FetchAcceptedAsWritten(INFO_ERROR)
    ensures !FetchSucceeded(INFO_ERROR)
    ensures forall r: uint32 :: FetchSucceeded(r) ==> FetchAcceptedAsWritten(r)
  {
  }

  /** Every step of the name lookup succeeded. */
  predicate NameFound(q: NameQuery)
  {
    q.sizeRet == 0 && q.pcbSize > 0 && q.bufferAllocated && FetchSucceeded(q.fetchRet)
  }

  predicate IsInputDevice(d: RawDevice)
  {
    d.dwType == RIM_TYPEKEYBOARD || d.dwType == RIM_TYPEMOUSE
  }

  /** An entry that is recorded unless its handle already is. */
  predicate Admissible(d: RawDevice)
  {
    IsInputDevice(d) && NameFound(d.query)
  }

  /** keyboardDevices and mouseDevices as one value. */
  datatype Registry = Registry(keyboards: map<Handle, DeviceInfo>, mice: map<Handle, DeviceInfo>)

  /**
   * The loop body of scanDevices for one list entry, given whether its name
   * lookup is taken to have succeeded.
   */
  function Record(reg: Registry, d: RawDevice, nameFound: bool): Registry
  {
    if !IsInputDevice(d) then reg
    else if d.hDevice in reg.keyboards then reg
    else if d.hDevice in reg.mice then reg
    else if !nameFound then reg
    else if d.dwType == RIM_TYPEKEYBOARD then
      reg.(keyboards := reg.keyboards[d.hDevice := DeviceInfo(d.hDevice, d.query.name)])
    else
      reg.(mice := reg.mice[d.hDevice := DeviceInfo(d.hDevice, d.query.name)])
  }

  /** The loop body with the corrected fetch guard. */
  function Admit(reg: Registry, d: RawDevice): Registry
  {
    Record(reg, d, NameFound(d.query))
  }

  /** The maps after scanning `devices` from empty maps, entry by entry. */
  function Snapshot(devices: seq<RawDevice>): Registry
  {
    if devices == [] then Registry(map[], map[])
    else Admit(Snapshot(devices[..|devices| - 1]), devices[|devices| - 1])
  }

  /** The name lookup as the source checks it, with the unsigned `> 0` fetch guard. */
  predicate NameFoundAsWritten(q: NameQuery)
  {
    q.sizeRet == 0 && q.pcbSize > 0 && q.bufferAllocated && FetchAcceptedAsWritten(q.fetchRet)
  }

  /** scanDevices as written: the same loop, with the unsigned `> 0` fetch guard. */
  function SnapshotAsWritten(devices: seq<RawDevice>): Registry
  {
    if devices == [] then Registry(map[], map[])
    else
      var d := devices[|devices| - 1];
      Record(SnapshotAsWritten(devices[..|devices| - 1]), d, NameFoundAsWritten(d.query))
  }

  /**
   * A keyboard whose name fetch fails with (UINT)-1 is recorded by the scan
   * as written, with whatever the buffer holds as its name; the corrected
   * scan skips it.
   */
  lemma FetchErrorRecordedAsWritten(k: Handle, size: uint32, junk: string)
    requires size > 0
    ensures var devices := [RawDevice(k, RIM_TYPEKEYBOARD, NameQuery(0, size, true, INFO_ERROR, junk))];
            && k in SnapshotAsWritten(devices).keyboards
            && SnapshotAsWritten(devices).keyboards[k] == DeviceInfo(k, junk)
            && k !in Snapshot(devices).keyboards && k !in Snapshot(devices).mice
  {
    var devices := [RawDevice(k, RIM_TYPEKEYBOARD, NameQuery(0, size, true, INFO_ERROR, junk))];
    assert devices[..0] == [];
  }

  /**
   * The error return is the only difference: on a list where no name fetch
   * returns (UINT)-1, the scan as written and the corrected scan agree.
   */
  lemma {:induction false} AsWrittenAgreesWithoutFetchError(devices: seq<RawDevice>)
    requires forall i :: 0 <= i < |devices| ==> devices[i].query.fetchRet != INFO_ERROR
    ensures SnapshotAsWritten(devices) == Snapshot(devices)
    decreases |devices|
  {
    if devices != [] {
      var n := |devices| - 1;
      assert forall i :: 0 <= i < n ==> devices[..n][i] == devices[i];
      AsWrittenAgreesWithoutFetchError(devices[..n]);
      assert NameFoundAsWritten(devices[n].query) == NameFound(devices[n].query);
    }
  }

  /** Entry `i` is the first admissible entry of the list for handle `k`. */
  ghost predicate IsFirstAdmissible(devices: seq<RawDevice>, k: Handle, i: int)
  {
    && 0 <= i < |devices|
    && devices[i].hDevice == k
    && Admissible(devices[i])
    && forall j :: 0 <= j < i ==> !(devices[j].hDevice == k && Admissible(devices[j]))
  }

  /** Some entry of the list for handle `k` is admissible. */
  ghost predicate HasAdmissible(devices: seq<RawDevice>, k: Handle)
  {
    exists i :: 0 <= i < |devices| && devices[i].hDevice == k && Admissible(devices[i])
  }

  /**
   * What the snapshot holds for a handle `k`, in terms of the list alone:
   * `k` is recorded exactly when some entry for it is a keyboard or mouse
   * whose name lookup succeeded; the first such entry decides the map (its
   * type) and the info (its handle and name), and `k` is then in no other map.
   */
  lemma {:induction false} SnapshotCharacterized(devices: seq<RawDevice>, k: Handle)
    ensures k in Snapshot(devices).keyboards || k in Snapshot(devices).mice <==> HasAdmissible(devices, k)
    ensures forall i :: IsFirstAdmissible(devices, k, i) ==>
              var reg := Snapshot(devices);
              && (devices[i].dwType == RIM_TYPEKEYBOARD ==>
                    k in reg.keyboards && k !in reg.mice && reg.keyboards[k] == DeviceInfo(k, devices[i].query.name))
              && (devices[i].dwType == RIM_TYPEMOUSE ==>
                    k in reg.mice && k !in reg.keyboards && reg.mice[k] == DeviceInfo(k, devices[i].query.name))
    decreases |devices|
  {
    if devices != [] {
      var n := |devices| - 1;
      var prefix, e := devices[..n], devices[n];
      assert devices == prefix + [e];
      SnapshotCharacterized(prefix, k);
      var before := Snapshot(prefix);
      assert Snapshot(devices) == Admit(before, e);
      if k in before.keyboards || k in before.mice {
        var i0 :| 0 <= i0 < |prefix| && prefix[i0].hDevice == k && Admissible(prefix[i0]);
        assert devices[i0] == prefix[i0];
        forall i | IsFirstAdmissible(devices, k, i)
          ensures IsFirstAdmissible(prefix, k, i)
        {
        }
      } else {
        assert !HasAdmissible(prefix, k);
        if e.hDevice == k && Admissible(e) {
          assert IsFirstAdmissible(devices, k, n);
        } else {
          forall i | 0 <= i < |devices| && devices[i].hDevice == k
            ensures !Admissible(devices[i])
          {
            if i < n {
              assert devices[i] == prefix[i];
            }
          }
        }
      }
    }
  }

  /** No handle is ever recorded both as a keyboard and as a mouse. */
  lemma SnapshotDisjoint(devices: seq<RawDevice>)
    ensures Snapshot(devices).keyboards.Keys !! Snapshot(devices).mice.Keys
  {
    var reg := Snapshot(devices);
    forall k | k in reg.keyboards && k in reg.mice
      ensures false
    {
      SnapshotCharacterized(devices, k);
      var i := FirstAdmissible(devices, k);
    }
  }

  /** The first admissible entry for a handle that has one. */
  lemma FirstAdmissible(devices: seq<RawDevice>, k: Handle) returns (i: nat)
    requires HasAdmissible(devices, k)
    ensures IsFirstAdmissible(devices, k, i)
  {
    var m :| 0 <= m < |devices| && devices[m].hDevice == k && Admissible(devices[m]);
    i := 0;
    while !(devices[i].hDevice == k && Admissible(devices[i]))
      invariant 0 <= i <= m
      invariant forall j :: 0 <= j < i ==> !(devices[j].hDevice == k && Admissible(devices[j]))
      decreases m - i
    {
      i := i + 1;
    }
  }

  /**
   * Every recorded handle comes from the list with the matching type, and
   * every recorded info carries its own key as `device`.
   */
  lemma SnapshotProvenance(devices: seq<RawDevice>, k: Handle)
    ensures k in Snapshot(devices).keyboards ==>
              Snapshot(devices).keyboards[k].device == k &&
              exists i :: 0 <= i < |devices| && devices[i].hDevice == k && devices[i].dwType == RIM_TYPEKEYBOARD
    ensures k in Snapshot(devices).mice ==>
              Snapshot(devices).mice[k].device == k &&
              exists i :: 0 <= i < |devices| && devices[i].hDevice == k && devices[i].dwType == RIM_TYPEMOUSE
  {
    SnapshotCharacterized(devices, k);
    if k in Snapshot(devices).keyboards || k in Snapshot(devices).mice {
      var i := FirstAdmissible(devices, k);
    }
  }

  /** The dispatcher's device maps; its handler and chain maps are not part of this model. */
  class EventDispatcher {
    var keyboardDevices: map<Handle, DeviceInfo>
    var mouseDevices: map<Handle, DeviceInfo>

    constructor ()
      ensures keyboardDevices == map[] && mouseDevices == map[]
    {
      keyboardDevices, mouseDevices := map[], map[];
    }

    /**
     * Rebuilds both maps from the enumerated list alone: whatever the maps
     * held before is discarded.
     */
    method ScanDevices(devices: seq<RawDevice>)
      modifies this
      ensures Registry(keyboardDevices, mouseDevices) == Snapshot(devices)
    {
      keyboardDevices := map[];
      mouseDevices := map[];
      var i := 0;
      while i < |devices|
        invariant 0 <= i <= |devices|
        invariant Registry(keyboardDevices, mouseDevices) == Snapshot(devices[..i])
      {
        var rid := devices[i];
        assert devices[..i + 1][..i] == devices[..i];
        if rid.dwType != RIM_TYPEKEYBOARD && rid.dwType != RIM_TYPEMOUSE {
        } else if rid.hDevice in keyboardDevices {
        } else if rid.hDevice in mouseDevices {
        } else if rid.query.sizeRet != 0 {
        } else if rid.query.pcbSize > 0 && rid.query.bufferAllocated && FetchSucceeded(rid.query.fetchRet) {
          var devName := rid.query.name;
          if rid.dwType == RIM_TYPEKEYBOARD {
            keyboardDevices := keyboardDevices[rid.hDevice := DeviceInfo(rid.hDevice, devName)];
          } else if rid.dwType == RIM_TYPEMOUSE {
            mouseDevices := mouseDevices[rid.hDevice := DeviceInfo(rid.hDevice, devName)];
          }
        }
        i := i + 1;
      }
      assert devices[..i] == devices;
    }

    /** A stub in this revision: the event is left as it came. */
    method HandleKeyboard(evt: KeyboardEvent) returns (handled: KeyboardEvent)
      ensures handled == evt
    {
      handled := evt;
    }

    /** A stub in this revision: the event is left as it came. */
    method HandleMouseButton(evt: MouseButtonEvent) returns (handled: MouseButtonEvent)
      ensures handled == evt
    {
      handled := evt;
    }

    /** A stub in this revision: the event is left as it came. */
    method HandleMouseWheel(evt: MouseWheelEvent) returns (handled: MouseWheelEvent)
      ensures handled == evt
    {
      handled := evt;
    }

    /** A stub in this revision: the event is left as it came. */
    method HandleMouseMove(evt: MouseMoveEvent) returns (handled: MouseMoveEvent)
      ensures handled == evt
    {
      handled := evt;
    }

    /** A stub in this revision: always the empty list, whatever the maps hold. */
    method EnumerateKeyboards() returns (keyboards: seq<DeviceInfo>)
      ensures keyboards == []
    {
      keyboards := [];
    }

    /** A stub in this revision: always the empty list, whatever the maps hold. */
    method EnumerateMice() returns (mice: seq<DeviceInfo>)
      ensures mice == []
    {
      mice := [];
    }
  }
}
