/**
 * The body of the discovery thread in `launch_discovery_service`: the
 * `while let Ok(event) = receiver.recv()` loop that turns mDNS events into
 * registry updates and user-interface events.  The receiver is the
 * sequence of events it delivers before its channel closes.
 */
module Discovery {
  import opened Wrappers
  import opened Registry

  datatype ServiceEvent =
    | SearchStarted(serviceType: string)
    | ServiceFound(serviceType: string, fullname: string)
    | ServiceResolved(info: ServiceInfo)
    | ServiceRemoved(serviceType: string, fullname: string)
    | SearchStopped(serviceType: string)

  /** The `device-discovered` and `device-removed` events emitted to the window. */
  datatype DeviceEvent = DeviceDiscovered(info: ConnectionInfo) | DeviceRemoved(info: ConnectionInfo)

  /** `format!("{}.local.", hs)`: the host name our own records carry. */
  function LocalHostname(hostname: string): (local: string)
    ensures hostname <= local && local[|hostname|..] == ".local."
  {
    hostname + ".local."
  }

  /** The event that breaks out of the loop. */
  predicate EndsLoop(e: ServiceEvent) {
    e.SearchStopped? && e.serviceType == MdnsServiceType
  }

  /** What one event does to the table of connections. */
  function Step(m: map<string, Connection>, e: ServiceEvent, localHostname: string): map<string, Connection> {
    match e
    case ServiceResolved(info) =>
      if info.hostname == localHostname then m
      else m[info.fullname := FromServiceInfo(info)]
    case ServiceRemoved(_, name) => m - {name}
    case _ => m
  }

  /** What one event emits to the window. */
  function Emits(e: ServiceEvent, localHostname: string): seq<DeviceEvent> {
    match e
    case ServiceResolved(info) =>
      if info.hostname == localHostname then [] else [DeviceDiscovered(FromServiceInfo(info).info)]
    case ServiceRemoved(_, name) => [DeviceRemoved(EmptyConnectionWithName(name).info)]
    case _ => []
  }

  /** The table after handling the events in order. */
  function Apply(m: map<string, Connection>, events: seq<ServiceEvent>, localHostname: string): map<string, Connection>
    decreases |events|
  {
    if events == [] then m
    else Step(Apply(m, events[..|events| - 1], localHostname), events[|events| - 1], localHostname)
  }

  /** The window events emitted while handling the events in order. */
  function EmittedBy(events: seq<ServiceEvent>, localHostname: string): seq<DeviceEvent>
    decreases |events|
  {
    if events == [] then []
    else EmittedBy(events[..|events| - 1], localHostname) + Emits(events[|events| - 1], localHostname)
  }

  /**
   * How many events the loop takes from the receiver: all of them, or up
   * to and including the first `SearchStopped` of the fdrop service type.
   */
  function Handled(events: seq<ServiceEvent>): (n: nat)
    ensures n <= |events|
    ensures forall j | 0 <= j < n - 1 :: !EndsLoop(events[j])
    ensures n == |events| || (0 < n && EndsLoop(events[n - 1]))
  {
    if events == [] then 0
    else if EndsLoop(events[0]) then 1
    else 1 + Handled(events[1..])
  }

  /**
   * Runs the loop body over the events, against the shared registry; our
   * own records are recognised by the system host name with ".local.".
   */
  method RunEventLoop(cm: ConnectionManager, events: seq<ServiceEvent>, hostname: string)
    returns (emitted: seq<DeviceEvent>, handled: nat)
    requires cm.Valid()
    modifies cm`availableConnections
    ensures cm.Valid()
    ensures handled == Handled(events)
    ensures cm.availableConnections == Apply(old(cm.availableConnections), events[..handled], LocalHostname(hostname))
    ensures emitted == EmittedBy(events[..handled], LocalHostname(hostname))
  {
    var localHostname := hostname + ".local.";
    emitted := [];
    var i := 0;
    while i < |events|
      invariant 0 <= i <= |events|
      invariant forall j | 0 <= j < i :: !EndsLoop(events[j])
      invariant cm.Valid()
      invariant cm.availableConnections == Apply(old(cm.availableConnections), events[..i], localHostname)
      invariant emitted == EmittedBy(events[..i], localHostname)
    {
      assert events[..i + 1][..i] == events[..i];
      ghost var before, emittedBefore := cm.availableConnections, emitted;
      assert Apply(old(cm.availableConnections), events[..i + 1], localHostname) == Step(before, events[i], localHostname);
      assert EmittedBy(events[..i + 1], localHostname) == emittedBefore + Emits(events[i], localHostname);
      var event := events[i];
      match event {
        case ServiceResolved(info) =>
          if info.hostname != localHostname {
            var con := FromServiceInfo(info);
            emitted := emitted + [DeviceDiscovered(con.info)];
            cm.Replace(con);
          }
        case ServiceRemoved(_, name) =>
          var con := EmptyConnectionWithName(name);
          emitted := emitted + [DeviceRemoved(con.info)];
          cm.Remove(con.info.name);
        case SearchStopped(ss) =>
          if ss == MdnsServiceType {
            handled := i + 1;
            HandledStopsAt(events, i);
            return;
          }
        case _ =>
      }
      assert cm.availableConnections == Step(before, event, localHostname);
      assert emitted == emittedBefore + Emits(event, localHostname);
      i := i + 1;
    }
    handled := i;
    HandledAll(events);
    assert events[..i] == events;
  }

  /** The loop stops right after the first event that ends it. */
  lemma {:induction false} HandledStopsAt(events: seq<ServiceEvent>, i: nat)
    requires i < |events| && EndsLoop(events[i])
    requires forall j | 0 <= j < i :: !EndsLoop(events[j])
    ensures Handled(events) == i + 1
  {
    if i > 0 {
      HandledStopsAt(events[1..], i - 1);
    }
  }

  /** Without an event that ends it, the loop takes every event. */
  lemma {:induction false} HandledAll(events: seq<ServiceEvent>)
    requires forall j | 0 <= j < |events| :: !EndsLoop(events[j])
    ensures Handled(events) == |events|
  {
    if events != [] {
      HandledAll(events[1..]);
    }
  }

  /** `SearchStopped` of the fdrop service type ends the loop: nothing after it is handled. */
  lemma EventsAfterStopIgnored(before: seq<ServiceEvent>, after: seq<ServiceEvent>)
    requires forall j | 0 <= j < |before| :: !EndsLoop(before[j])
    ensures Handled(before + [SearchStopped(MdnsServiceType)] + after) == |before| + 1
  {
    var events := before + [SearchStopped(MdnsServiceType)] + after;
    assert events[|before|] == SearchStopped(MdnsServiceType);
    HandledStopsAt(events, |before|);
  }

  /** A record resolved for our own host name changes nothing and emits nothing. */
  lemma OwnHostIgnored(m: map<string, Connection>, info: ServiceInfo, localHostname: string)
    requires info.hostname == localHostname
    ensures Step(m, ServiceResolved(info), localHostname) == m
    ensures Emits(ServiceResolved(info), localHostname) == []
  {
  }

  /**
   * Any other resolved record replaces the whole record of its name by a
   * fresh one: the new addresses, unlinked and without a channel, even when
   * the old record had one; every other name keeps its record.
   */
  lemma ResolvedReplacesRecord(m: map<string, Connection>, info: ServiceInfo, localHostname: string)
    requires info.hostname != localHostname
    ensures var r := Step(m, ServiceResolved(info), localHostname);
      r.Keys == m.Keys + {info.fullname} &&
      r[info.fullname] == Connection(ConnectionInfo(info.fullname, false), info.addresses, None) &&
      (forall n | n in m && n != info.fullname :: r[n] == m[n])
  {
  }

  /** Rediscovery drops the channel of a linked peer. */
  lemma RediscoveryDropsChannel(m: map<string, Connection>, info: ServiceInfo, localHostname: string)
    requires info.hostname != localHostname
    requires info.fullname in m && m[info.fullname].tx.Some?
    ensures Step(m, ServiceResolved(info), localHostname)[info.fullname].tx.None?
  {
  }

  /** `ServiceRemoved` deletes that name, whatever its service type, and nothing else. */
  lemma RemovedDeletesOnlyThatName(m: map<string, Connection>, serviceType: string, name: string, localHostname: string)
    ensures var r := Step(m, ServiceRemoved(serviceType, name), localHostname);
      r.Keys == m.Keys - {name} && forall n | n in r :: r[n] == m[n]
  {
  }

  /** Handling any events keeps every record under its own name. */
  lemma {:induction false} ApplyKeepsKeyed(m: map<string, Connection>, events: seq<ServiceEvent>, localHostname: string)
    requires KeyedByName(m)
    ensures KeyedByName(Apply(m, events, localHostname))
    decreases |events|
  {
    if events != [] {
      ApplyKeepsKeyed(m, events[..|events| - 1], localHostname);
    }
  }
}
