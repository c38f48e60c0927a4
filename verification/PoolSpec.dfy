/** The client pool as a value: which client serves which vCenter, and who was closed. */
module PoolSpec {
  import opened Records
  import opened StoreSpec

  datatype Endpoint = Endpoint(
    id: string,
    url: string,
    username: string,
    password: string,
    insecure: bool,
    datacenter: string,
    datastore: string,
    folder: string,
    isoFolder: string,
    isoCache: string)

  const DEFAULT_ISO_CACHE := "/var/tmp/rf2vc"

  function EndpointFrom(vc: VCenter, isoCache: string): Endpoint {
    Endpoint(vc.id, vc.url, vc.username, vc.password, vc.insecure, vc.datacenter, vc.datastore, vc.folder,
        vc.isoFolder, isoCache)
  }

  predicate SameEndpoint(a: Endpoint, b: Endpoint) {
    && a.url == b.url && a.username == b.username && a.password == b.password
    && a.insecure == b.insecure && a.datacenter == b.datacenter && a.datastore == b.datastore
    && a.folder == b.folder && a.isoFolder == b.isoFolder
  }

  /** The endpoint is that of the record, field by field. */
  predicate EndpointOf(ep: Endpoint, vc: VCenter) {
    && ep.url == vc.url && ep.username == vc.username && ep.password == vc.password && ep.insecure == vc.insecure
    && ep.datacenter == vc.datacenter && ep.datastore == vc.datastore
    && ep.folder == vc.folder && ep.isoFolder == vc.isoFolder
  }

  /** The endpoint a new client keeps. */
  function Normalized(ep: Endpoint): Endpoint {
    ep.(isoCache := if ep.isoCache == "" then DEFAULT_ISO_CACHE else ep.isoCache,
    isoFolder := if ep.isoFolder == "" then DEFAULT_ISO_FOLDER else ep.isoFolder,
    datastore := NormalizeDatastore(ep.datastore))
  }

  datatype Pooled = Pooled(serial: nat, ep: Endpoint)

  /** Clients are numbered as they are created; closes[n] counts how often client n was closed. */
  datatype PoolState = PoolState(clients: map<string, Pooled>, closes: seq<nat>)

  /** Close the client of id, if there is one, and forget it. */
  function Dropped(p: PoolState, id: string): PoolState {
    if id !in p.clients then p else
    var n := p.clients[id].serial;
    PoolState(p.clients - {id}, if n < |p.closes| then p.closes[n := p.closes[n] + 1] else p.closes)
  }

  function WithClient(q: PoolState, id: string, ep: Endpoint): PoolState {
    PoolState(q.clients[id := Pooled(|q.closes|, ep)], q.closes + [0])
  }

  /** Pool.For: a hit needs the same endpoint; otherwise the old client is closed first.
      dirOk says whether the cache directory could be made. */
  function For(p: PoolState, vc: VCenter, isoCache: string, dirOk: bool): (PoolState, Option<nat>) {
    var ep := EndpointFrom(vc, isoCache);
    if vc.id in p.clients && SameEndpoint(p.clients[vc.id].ep, ep) then (p, Some(p.clients[vc.id].serial)) else
    var q := Dropped(p, vc.id);
    if vc.password == "" || !dirOk then (q, None) else (WithClient(q, vc.id, Normalized(ep)), Some(|q.closes|))
  }

  ghost predicate PoolOk(p: PoolState) {
    && (forall id :: id in p.clients ==>
      && p.clients[id].serial < |p.closes| && p.closes[p.clients[id].serial] == 0
      && p.clients[id].ep.id == id && Normalized(p.clients[id].ep) == p.clients[id].ep)
    && (forall id, o :: id in p.clients && o in p.clients && id != o ==> p.clients[id].serial != p.clients[o].serial)
    && (forall n :: 0 <= n < |p.closes| ==> p.closes[n] <= 1)
    && (forall n :: 0 <= n < |p.closes| && p.closes[n] == 0 ==>
        exists id :: id in p.clients && p.clients[id].serial == n)
  }

  predicate EndpointNormal(vc: VCenter) {
    vc.isoFolder != "" && NormalizeDatastore(vc.datastore) == vc.datastore
  }

  lemma NormalizedTwice(ep: Endpoint)
    ensures Normalized(Normalized(ep)) == Normalized(ep)
  {
    NormalizeDatastoreTwice(ep.datastore);
  }

  lemma DroppedOk(p: PoolState, id: string)
    requires PoolOk(p)
    ensures PoolOk(Dropped(p, id)) && id !in Dropped(p, id).clients
  {
    hide Normalized;
    if id in p.clients {
      var q, n := Dropped(p, id), p.clients[id].serial;
      forall k | 0 <= k < |q.closes| && q.closes[k] == 0
        ensures exists o :: o in q.clients && q.clients[o].serial == k
      {
        var o :| o in p.clients && p.clients[o].serial == k;
        assert o in q.clients;
      }
    }
  }

  lemma AddedOk(q: PoolState, id: string, ep: Endpoint)
    requires PoolOk(q) && id !in q.clients && ep.id == id && Normalized(ep) == ep
    ensures PoolOk(PoolState(q.clients[id := Pooled(|q.closes|, ep)], q.closes + [0]))
  {
    hide Normalized;
    var r := PoolState(q.clients[id := Pooled(|q.closes|, ep)], q.closes + [0]);
    forall k | 0 <= k < |r.closes| && r.closes[k] == 0
      ensures exists o :: o in r.clients && r.clients[o].serial == k
    {
      if k < |q.closes| {
        var o :| o in q.clients && q.clients[o].serial == k;
        assert r.clients[o].serial == k;
      } else {
        assert r.clients[id].serial == k;
      }
    }
  }

  /** Every client ever created is in the map under its own id, or was closed exactly once. */
  lemma ForKeepsOk(p: PoolState, vc: VCenter, isoCache: string, dirOk: bool)
    requires PoolOk(p)
    ensures PoolOk(For(p, vc, isoCache, dirOk).0)
  {
    DroppedOk(p, vc.id);
    NormalizedTwice(EndpointFrom(vc, isoCache));
    AddedOk(Dropped(p, vc.id), vc.id, Normalized(EndpointFrom(vc, isoCache)));
  }

  /** What For does: the pooled client is handed out exactly when its endpoint is the record's; any
      other client of the vCenter is closed and forgotten, and a new one made when there is a password
      and the cache directory can be made. Other clients are left alone. */
  lemma ForIs(p: PoolState, vc: VCenter, isoCache: string, dirOk: bool)
    requires PoolOk(p)
    ensures var (q, r) := For(p, vc, isoCache, dirOk);
            if vc.id in p.clients && EndpointOf(p.clients[vc.id].ep, vc)
            then q == p && r == Some(p.clients[vc.id].serial)
            else
              && (forall o :: o != vc.id ==> (o in q.clients <==> o in p.clients))
              && (forall o :: o in p.clients && o != vc.id ==> q.clients[o] == p.clients[o])
              && |q.closes| == |p.closes| + (if r.Some? then 1 else 0)
              && (forall n :: 0 <= n < |p.closes| ==>
                   q.closes[n] == p.closes[n] + if vc.id in p.clients && p.clients[vc.id].serial == n then 1 else 0)
              && (r.Some? <==> vc.password != "" && dirOk) && (r.Some? <==> vc.id in q.clients)
              && (r.Some? ==> r.value == |p.closes| == q.clients[vc.id].serial && q.closes[|p.closes|] == 0)
              && (r.Some? ==> IsNewEndpoint(q.clients[vc.id].ep, vc, isoCache))
  {
    hide NormalizeDatastore, Dropped, Normalized, PoolOk, IsNewEndpoint;
    DroppedIs(p, vc.id);
    NewEndpointIs(vc, isoCache);
  }

  lemma DroppedIs(p: PoolState, id: string)
    requires PoolOk(p)
    ensures var q := Dropped(p, id);
            && id !in q.clients && |q.closes| == |p.closes|
            && (forall o :: o != id ==> (o in q.clients <==> o in p.clients))
            && (forall o :: o in p.clients && o != id ==> q.clients[o] == p.clients[o])
            && (forall n :: 0 <= n < |p.closes| ==>
                 q.closes[n] == p.closes[n] + if id in p.clients && p.clients[id].serial == n then 1 else 0)
  {
    hide Normalized;
  }

  lemma NewEndpointIs(vc: VCenter, isoCache: string)
    ensures IsNewEndpoint(Normalized(EndpointFrom(vc, isoCache)), vc, isoCache)
  {
    hide NormalizeDatastore;
  }

  /** The endpoint of a new client: the record's, with defaults where it says nothing. */
  predicate IsNewEndpoint(ep: Endpoint, vc: VCenter, isoCache: string) {
    && ep.id == vc.id && ep.url == vc.url && ep.username == vc.username && ep.password == vc.password
    && ep.insecure == vc.insecure && ep.datacenter == vc.datacenter && ep.folder == vc.folder
    && ep.datastore == NormalizeDatastore(vc.datastore)
    && ep.isoFolder == (if vc.isoFolder == "" then "rf2vc/isos" else vc.isoFolder)
    && ep.isoCache == if isoCache == "" then DEFAULT_ISO_CACHE else isoCache
  }

  /** The client handed out has the endpoint of the record that was asked for. */
  lemma ForIsCoherent(p: PoolState, vc: VCenter, isoCache: string, dirOk: bool)
    requires PoolOk(p) && EndpointNormal(vc)
    ensures var (q, r) := For(p, vc, isoCache, dirOk);
            && (r.Some? ==>
              vc.id in q.clients && q.clients[vc.id].serial == r.value
              && SameEndpoint(q.clients[vc.id].ep, EndpointFrom(vc, isoCache))
              && EndpointOf(q.clients[vc.id].ep, vc))
            && (r.None? ==> vc.id !in q.clients)
  {
    DroppedOk(p, vc.id);
  }

  /** Asking again gives the same client exactly for records whose ISO folder is set and
      whose datastore is not a placeholder; for others every call closes one client and
      makes another. */
  lemma SameClientIff(p: PoolState, vc: VCenter, isoCache: string, dirOk: bool)
    requires PoolOk(p) && For(p, vc, isoCache, true).1.Some?
    ensures var (q, r) := For(p, vc, isoCache, true);
            For(q, vc, isoCache, dirOk) == (q, r) <==> EndpointNormal(vc)
  {
    var (q, r) := For(p, vc, isoCache, true);
    var ep := EndpointFrom(vc, isoCache);
    if vc.id in p.clients && SameEndpoint(p.clients[vc.id].ep, ep) {
      var kept := p.clients[vc.id].ep;
      assert Normalized(kept) == kept;
      assert kept.isoFolder == vc.isoFolder && kept.datastore == vc.datastore;
    } else {
      assert q.clients[vc.id].ep == Normalized(ep);
    }
  }

  // ---------------------------------------------------------------- runs

  datatype PoolOp =
    | Get(vc: VCenter, dirOk: bool)   // For, with the record it was given
    | Invalidate(id: string)
    | CloseOne(closing: string)       // one round of CloseAll

  function Apply(p: PoolState, op: PoolOp, isoCache: string): PoolState {
    match op
    case Get(vc, dirOk) => For(p, vc, isoCache, dirOk).0
    case Invalidate(id) => Dropped(p, id)
    case CloseOne(id) => Dropped(p, id)
  }

  function ApplyAll(p: PoolState, ops: seq<PoolOp>, isoCache: string): PoolState {
    if ops == [] then p else Apply(ApplyAll(p, ops[..|ops| - 1], isoCache), ops[|ops| - 1], isoCache)
  }

  lemma {:induction false} RunKeepsOk(p: PoolState, ops: seq<PoolOp>, isoCache: string)
    requires PoolOk(p)
    ensures PoolOk(ApplyAll(p, ops, isoCache))
  {
    if ops != [] {
      var q, op := ApplyAll(p, ops[..|ops| - 1], isoCache), ops[|ops| - 1];
      RunKeepsOk(p, ops[..|ops| - 1], isoCache);
      if op.Get? {
        ForKeepsOk(q, op.vc, isoCache, op.dirOk);
      } else {
        DroppedOk(q, if op.Invalidate? then op.id else op.closing);
      }
    }
  }

  /** The operation leaves the client of vc alone: it concerns another vCenter, or asks for
      this one with the same endpoint fields. */
  predicate LeavesAlone(op: PoolOp, vc: VCenter) {
    match op
    case Get(other, _) => other.id != vc.id || SameEndpoint(EndpointFrom(other, ""), EndpointFrom(vc, ""))
    case Invalidate(id) => id != vc.id
    case CloseOne(id) => id != vc.id
  }

  lemma StepKeepsClient(p: PoolState, op: PoolOp, isoCache: string, vc: VCenter)
    requires vc.id in p.clients && SameEndpoint(p.clients[vc.id].ep, EndpointFrom(vc, isoCache))
    requires LeavesAlone(op, vc)
    ensures var q := Apply(p, op, isoCache); vc.id in q.clients && q.clients[vc.id] == p.clients[vc.id]
  {
    if op.Get? && op.vc.id == vc.id {
      assert SameEndpoint(p.clients[vc.id].ep, EndpointFrom(op.vc, isoCache));
    }
  }

  /** With no edit of its endpoint and no invalidation in between, a vCenter keeps its client
      through any run of other calls. */
  lemma {:induction false} ClientIsKept(p: PoolState, ops: seq<PoolOp>, isoCache: string, vc: VCenter)
    requires vc.id in p.clients && SameEndpoint(p.clients[vc.id].ep, EndpointFrom(vc, isoCache))
    requires forall k :: 0 <= k < |ops| ==> LeavesAlone(ops[k], vc)
    ensures var q := ApplyAll(p, ops, isoCache);
            && vc.id in q.clients && q.clients[vc.id] == p.clients[vc.id]
            && For(q, vc, isoCache, true) == (q, Some(p.clients[vc.id].serial))
  {
    if ops != [] {
      ClientIsKept(p, ops[..|ops| - 1], isoCache, vc);
      StepKeepsClient(ApplyAll(p, ops[..|ops| - 1], isoCache), ops[|ops| - 1], isoCache, vc);
    }
  }
}
