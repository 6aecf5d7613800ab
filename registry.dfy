/**
 * The connection registry of the networking crate: `Connection`, whose
 * equality and hash look only at its name, and `ConnectionManager`, which
 * keeps a `HashSet<Connection>`, the advertised instance name and the
 * counter of link-request windows.  A set whose elements are equal
 * exactly when their names are is a table keyed by name, so the set is a
 * map from name to record here, and `Valid()` says that every record sits
 * under its own name.
 */
module Registry {
  import opened Wrappers
  import opened Wire

  /** `MDNS_SERVICE_TYPE`. */
  const MdnsServiceType := "_fdrop._tcp.local."

  type U8 = Byte

  datatype IpAddr = IpAddr(octets: seq<Byte>)

  /** Stands for the `flume::Sender<Bytes>` of a peer's outbound queue. */
  type ChannelId = nat

  datatype ConnectionInfo = ConnectionInfo(name: string, linked: bool)

  datatype Connection = Connection(info: ConnectionInfo, addresses: seq<IpAddr>, tx: Option<ChannelId>)

  /**
   * The resolved mDNS record of a peer.  mdns-sd keeps its addresses in a
   * `HashSet`, so `addresses` has no duplicates and its order is whatever
   * order that set iterates in, which the source does not fix.
   */
  datatype ServiceInfo = ServiceInfo(fullname: string, hostname: string, addresses: seq<IpAddr>)

  /** `PartialEq for Connection` (and `Hash`): only the names are compared. */
  predicate SameConnection(a: Connection, b: Connection): (same: bool)
    ensures same <==> EmptyConnectionWithName(a.info.name) == EmptyConnectionWithName(b.info.name)
  {
    a.info.name == b.info.name
  }

  /**
   * `From<&ServiceInfo> for Connection`: an unlinked record with the
   * advertised addresses, in the set's iteration order, and no channel.
   */
  function FromServiceInfo(s: ServiceInfo): (c: Connection)
    ensures c.info.name == s.fullname && c.addresses == s.addresses
    ensures !c.info.linked && c.tx.None?
  {
    Connection(ConnectionInfo(s.fullname, false), s.addresses, None)
  }

  /** `create_empty_connection_with_name`: the placeholder used to look records up by name. */
  function EmptyConnectionWithName(name: string): (c: Connection)
    ensures c.info.name == name && !c.info.linked && c.addresses == [] && c.tx.None?
  {
    Connection(ConnectionInfo(name, false), [], None)
  }

  /** mDNS full name of an instance of the fdrop service: `name + "." + MDNS_SERVICE_TYPE`. */
  function FullName(instance: string): (full: string)
    ensures instance <= full && full[|instance|..] == "._fdrop._tcp.local."
  {
    instance + "." + MdnsServiceType
  }

  /** `active_link_requests += 1` on a `u8`, wrapping after 255 as a release build does. */
  function WrappingIncrement(x: U8): (y: U8)
    ensures x < 0xff ==> y == x + 1
    ensures x == 0xff ==> y == 0
  {
    (x + 1) % 0x100
  }

  /** Every record is stored under its own name. */
  ghost predicate KeyedByName(m: map<string, Connection>) {
    forall n | n in m :: m[n].info.name == n
  }

  /** The registry's state as a value, for stating what an operation does to it. */
  datatype ManagerState = ManagerState(
    connections: map<string, Connection>,
    instanceName: Option<string>,
    activeLinkRequests: U8)

  /** No two records of the registry are equal as `Connection`s: at most one record per name. */
  lemma AtMostOneRecordPerName(m: map<string, Connection>, a: Connection, b: Connection)
    requires KeyedByName(m)
    requires a in m.Values && b in m.Values && SameConnection(a, b)
    ensures a == b
  {
    var ka :| ka in m && m[ka] == a;
    var kb :| kb in m && m[kb] == b;
  }

  /** `Connection`'s equality is an equivalence, as `impl Eq` requires. */
  lemma SameConnectionIsEquivalence(a: Connection, b: Connection, c: Connection)
    ensures SameConnection(a, a)
    ensures SameConnection(a, b) ==> SameConnection(b, a)
    ensures SameConnection(a, b) && SameConnection(b, c) ==> SameConnection(a, c)
  {
  }

  /** A lookup by placeholder finds exactly the record stored under that name, if any. */
  lemma PlaceholderFindsRecord(m: map<string, Connection>, name: string, c: Connection)
    requires KeyedByName(m)
    ensures (c in m.Values && SameConnection(EmptyConnectionWithName(name), c)) <==> (name in m && c == m[name])
  {
    if c in m.Values && SameConnection(EmptyConnectionWithName(name), c) {
      var k :| k in m && m[k] == c;
    }
  }

  class ConnectionManager {
    var availableConnections: map<string, Connection>
    var instanceName: Option<string>
    var activeLinkRequests: U8

    ghost predicate Valid()
      reads this
    {
      KeyedByName(availableConnections)
    }

    function State(): ManagerState
      reads this
    {
      ManagerState(availableConnections, instanceName, activeLinkRequests)
    }

    /** `ConnectionManager::new` (the mDNS daemon it also creates is not part of this model). */
    constructor ()
      ensures Valid()
      ensures availableConnections == map[] && instanceName == None && activeLinkRequests == 0
    {
      availableConnections := map[];
      instanceName := None;
      activeLinkRequests := 0;
    }

    /** `get_connectionss`: the info of every record, and nothing else. */
    function ConnectionInfos(): (infos: set<ConnectionInfo>)
      reads this
      requires Valid()
      ensures forall i :: i in infos <==> i.name in availableConnections && availableConnections[i.name].info == i
    {
      set n | n in availableConnections :: availableConnections[n].info
    }

    /** `take_connection_by_name`: remove the record with that name and hand it out. */
    method TakeConnectionByName(name: string) returns (c: Option<Connection>)
      requires Valid()
      modifies this`availableConnections
      ensures Valid()
      ensures c == if name in old(availableConnections) then Some(old(availableConnections)[name]) else None
      ensures availableConnections == old(availableConnections) - {name}
    {
      var placeholder := EmptyConnectionWithName(name);
      if placeholder.info.name in availableConnections {
        c := Some(availableConnections[placeholder.info.name]);
      } else {
        c := None;
      }
      availableConnections := availableConnections - {placeholder.info.name};
    }

    /** `connection_exists`. */
    method ConnectionExists(name: string) returns (b: bool)
      requires Valid()
      ensures b <==> name in availableConnections
      ensures b <==> exists c :: c in availableConnections.Values && SameConnection(EmptyConnectionWithName(name), c)
    {
      var placeholder := EmptyConnectionWithName(name);
      b := placeholder.info.name in availableConnections;
      if b {
        assert availableConnections[name] in availableConnections.Values;
      } else {
        forall c | c in availableConnections.Values
          ensures !SameConnection(placeholder, c)
        {
          PlaceholderFindsRecord(availableConnections, name, c);
        }
      }
    }

    /** `HashSet::replace`: the record takes the place of any record of the same name. */
    method Replace(c: Connection)
      requires Valid()
      modifies this`availableConnections
      ensures Valid()
      ensures availableConnections == old(availableConnections)[c.info.name := c]
    {
      availableConnections := availableConnections[c.info.name := c];
    }

    /** `HashSet::remove` with a placeholder of that name. */
    method Remove(name: string)
      requires Valid()
      modifies this`availableConnections
      ensures Valid()
      ensures availableConnections == old(availableConnections) - {name}
    {
      availableConnections := availableConnections - {name};
    }

    /** `HashSet::insert`: a record of the same name already present is kept, not replaced. */
    method Insert(c: Connection) returns (inserted: bool)
      requires Valid()
      modifies this`availableConnections
      ensures Valid()
      ensures inserted <==> c.info.name !in old(availableConnections)
      ensures availableConnections
           == if inserted then old(availableConnections)[c.info.name := c] else old(availableConnections)
    {
      inserted := c.info.name !in availableConnections;
      if inserted {
        availableConnections := availableConnections[c.info.name := c];
      }
    }

    /** Reads the counter for a window label, then bumps it. */
    method NextLinkRequestId() returns (id: U8)
      modifies this`activeLinkRequests
      ensures id == old(activeLinkRequests) && activeLinkRequests == WrappingIncrement(id)
    {
      id := activeLinkRequests;
      activeLinkRequests := WrappingIncrement(activeLinkRequests);
    }

    /** `launch_discovery_service` records the full name of the service it advertises. */
    method RecordInstanceName(instance: string)
      modifies this`instanceName
      ensures instanceName == Some(FullName(instance))
    {
      instanceName := Some(FullName(instance));
    }
  }
}
