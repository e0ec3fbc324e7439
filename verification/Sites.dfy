/** The EdgeSite objects the Fleet and EdgeSite controllers share. */
module Sites {
  import opened Text

  datatype Key = Key(ns: string, name: string)

  /** Declared intent first, then the addressing that derivation fills in; "" is unset. */
  datatype Spec = Spec(
    server: string, user: string, role: string, ran: nat, colocated: bool,
    podCIDR: string, uePool: string, sliceSD: string, egressNic: string,
    accessCIDR: string, coreCIDR: string, accessGw: string, coreGw: string, coreNextHop: string,
    gnbIP: string, ranSubnet: string, n2VIP: string, ranNic: string)

  /** What an object says: fleet label, whether finalizers hold it, whether it is being deleted, its spec. */
  datatype Body = Body(fleet: Option<string>, held: bool, deleting: bool, spec: Spec)

  /** A stored object: its identity, the revision of its last change, and what it says. */
  datatype Site = Site(uid: nat, rev: nat, body: Body)

  type Store = map<Key, Site>
  type Bodies = map<Key, Body>

  function BodiesOf(sites: Store): Bodies {
    map k | k in sites :: sites[k].body
  }

  /** A stored object is rewritten under a new revision only when its content changes. */
  function Put(sites: Store, k: Key, body: Body, clock: nat): Store {
    if k !in sites then sites[k := Site(clock, clock, body)]
    else if sites[k].body == body then sites
    else sites[k := Site(sites[k].uid, clock, body)]
  }

  function NonColocated(sites: Store): set<Key> {
    set k | k in sites && !sites[k].body.spec.colocated
  }

  /** The addressing fields of a spec. */
  function Addressing(s: Spec): seq<string> {
    [s.podCIDR, s.uePool, s.sliceSD, s.egressNic, s.accessCIDR, s.coreCIDR, s.accessGw, s.coreGw, s.coreNextHop,
     s.gnbIP, s.ranSubnet, s.n2VIP, s.ranNic]
  }
}
