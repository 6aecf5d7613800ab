/**
 * The frontend's `networking.svelte.ts`: the display name of a device,
 * the parsing of a transfer type, and the `available_devices` map that
 * the device events keep up to date.
 */
module Networking {
  import opened Wrappers
  import Registry

  /** What `realname` cuts at. */
  const Marker := "._fdrop"

  /** The frontend's `ConnectionInfo`. */
  datatype DeviceInfo = DeviceInfo(name: string, linked: bool, platform: Option<string>)

  /** `pat` occurs in `s` starting at position `j`. */
  predicate OccursAt(s: string, pat: string, j: nat) {
    j + |pat| <= |s| && s[j..j + |pat|] == pat
  }

  predicate Contains(s: string, pat: string) {
    exists j: nat | j <= |s| :: OccursAt(s, pat, j)
  }

  /** The first position at or after `from` where `pat` occurs, or -1. */
  function IndexFrom(s: string, pat: string, from: nat): (i: int)
    ensures i == -1 || (from <= i && OccursAt(s, pat, i))
    ensures forall j: nat | from <= j && (i == -1 || j < i) :: !OccursAt(s, pat, j)
    decreases |s| - from
  {
    if from + |pat| > |s| then -1
    else if s[from..from + |pat|] == pat then from
    else IndexFrom(s, pat, from + 1)
  }

  /**
   * `String.prototype.indexOf`: the first occurrence of `pat` in `s`, or -1
   * when there is none.  Positions count Unicode scalar values, not UTF-16
   * code units as JavaScript does, so after a character outside the Basic
   * Multilingual Plane the two indices differ; `realname` cuts at the same
   * place either way, since the marker it looks for is ASCII.
   */
  function IndexOf(s: string, pat: string): (i: int)
    ensures i == -1 <==> !Contains(s, pat)
    ensures i >= 0 ==> OccursAt(s, pat, i) && forall j: nat | j < i :: !OccursAt(s, pat, j)
  {
    IndexFrom(s, pat, 0)
  }

  /**
   * `realname`: the device's name up to the first "._fdrop", or the whole
   * name when it has none.
   */
  function RealName(conn: DeviceInfo): (r: string)
    ensures r <= conn.name
    ensures !Contains(r, Marker)
    ensures |r| < |conn.name| <==> Contains(conn.name, Marker)
    ensures |r| < |conn.name| ==> OccursAt(conn.name, Marker, |r|)
  {
    var found := IndexOf(conn.name, Marker);
    var nameEnd := if found == -1 then |conn.name| else found;
    var r := conn.name[..nameEnd];
    assert !Contains(r, Marker) by {
      forall j: nat | OccursAt(r, Marker, j)
        ensures false
      {
        assert r[j..j + |Marker|] == conn.name[j..j + |Marker|];
        assert OccursAt(conn.name, Marker, j) && j <= |conn.name|;
      }
    }
    r
  }

  /**
   * `realname` undoes the full name the backend builds for a peer
   * (`name + "." + MDNS_SERVICE_TYPE`) whenever the short name itself has
   * no "._fdrop" in it.
   */
  lemma RealNameOfFullName(short: string, linked: bool, platform: Option<string>)
    requires !Contains(short, Marker)
    ensures RealName(DeviceInfo(Registry.FullName(short), linked, platform)) == short
  {
    var full := Registry.FullName(short);
    assert full == short + "._fdrop._tcp.local.";
    assert OccursAt(full, Marker, |short|);
    forall j: nat | j < |short|
      ensures !OccursAt(full, Marker, j)
    {
      if j + |Marker| <= |short| {
        assert full[j..j + |Marker|] == short[j..j + |Marker|];
        assert !OccursAt(short, Marker, j);
      } else {
        // the window straddles the end of `short`: there `full` has the
        // '.' that only the marker's first character matches
        var k := |short| - j;
        assert full[j..j + |Marker|][k] == full[|short|] == '.';
        assert Marker[k] != '.';
      }
    }
    assert IndexOf(full, Marker) == |short|;
    assert full[..|short|] == short;
  }

  datatype TransferType = TextMessage | PrepareFileTransfer

  /** The enum member's name, which is what the backend sends. */
  function TransferTypeName(t: TransferType): string {
    match t
    case TextMessage => "TextMessage"
    case PrepareFileTransfer => "PrepareFileTransfer"
  }

  /**
   * `transferTypeFromString`: a member for its own name, and `undefined`
   * (falling out of the `switch`) for every other string.
   */
  function TransferTypeFromString(s: string): (t: Option<TransferType>)
    ensures forall x :: t == Some(x) <==> s == TransferTypeName(x)
  {
    match s
    case "TextMessage" => Some(TextMessage)
    case "PrepareFileTransfer" => Some(PrepareFileTransfer)
    case _ => None
  }

  /** Setting the devices of a list one after another, as `forEach` with `set` does. */
  function SetAll(m: map<string, DeviceInfo>, devices: seq<DeviceInfo>): map<string, DeviceInfo>
    decreases |devices|
  {
    if devices == [] then m
    else SetAll(m, devices[..|devices| - 1])[devices[|devices| - 1].name := devices[|devices| - 1]]
  }

  /**
   * After a refresh, a name of the fetched list maps to the last device
   * with that name; every other name keeps its old entry, and no name is
   * lost or made up.
   */
  lemma {:induction false} SetAllLastWins(m: map<string, DeviceInfo>, devices: seq<DeviceInfo>, name: string)
    ensures name in SetAll(m, devices) <==> name in m || exists i | 0 <= i < |devices| :: devices[i].name == name
    ensures forall i | 0 <= i < |devices| && devices[i].name == name ::
      (forall j | i < j < |devices| :: devices[j].name != name) ==> SetAll(m, devices)[name] == devices[i]
    ensures name in m && (forall i | 0 <= i < |devices| :: devices[i].name != name) ==> SetAll(m, devices)[name] == m[name]
    decreases |devices|
  {
    if devices != [] {
      var init := devices[..|devices| - 1];
      SetAllLastWins(m, init, name);
      assert forall i | 0 <= i < |init| :: init[i] == devices[i];
    }
  }

  /** `available_devices` and the handlers that keep it up to date. */
  class AvailableDevices {
    var devices: map<string, DeviceInfo>

    constructor ()
      ensures devices == map[]
    {
      devices := map[];
    }

    /** `device-discovered`: the entry under the payload's name becomes the payload. */
    method OnDeviceDiscovered(payload: DeviceInfo)
      modifies this
      ensures devices == old(devices)[payload.name := payload]
      ensures forall n | n in old(devices) && n != payload.name :: n in devices && devices[n] == old(devices)[n]
    {
      var device := payload;
      devices := devices[payload.name := device];
    }

    /** `device-removed`: only the payload's name goes. */
    method OnDeviceRemoved(payload: DeviceInfo)
      modifies this
      ensures devices == old(devices) - {payload.name}
    {
      devices := devices - {payload.name};
    }

    /**
     * `device-linked`: the entry must exist (otherwise setting a field of
     * `undefined` throws and nothing changes); it becomes linked and takes
     * the payload's platform, and its name and every other entry stay.
     */
    method OnDeviceLinked(payload: DeviceInfo) returns (threw: bool)
      modifies this
      ensures threw <==> payload.name !in old(devices)
      ensures threw ==> devices == old(devices)
      ensures !threw ==>
        devices == old(devices)[payload.name := old(devices)[payload.name].(linked := true, platform := payload.platform)]
    {
      if payload.name !in devices {
        return true;
      }
      var device := devices[payload.name];
      device := device.(linked := true);
      device := device.(platform := payload.platform);
      devices := devices[payload.name := device];
      return false;
    }

    /** `refresh_available_devices`: every fetched device is set under its name, in list order. */
    method RefreshAvailableDevices(fetched: seq<DeviceInfo>)
      modifies this
      ensures devices == SetAll(old(devices), fetched)
    {
      for i := 0 to |fetched|
        invariant devices == SetAll(old(devices), fetched[..i])
      {
        assert fetched[..i + 1][..i] == fetched[..i];
        devices := devices[fetched[i].name := fetched[i]];
      }
      assert fetched[..|fetched|] == fetched;
    }
  }
}
