/** The pool of lazy vCenter clients. */
module Pool {
  import opened Records
  import opened StoreSpec
  import opened Store
  import opened PoolSpec

  /** A pooled client, as far as the pool is concerned. */
  class Client {
    const ep: Endpoint
    ghost const serial: nat
    /** How often Close was called. */
    ghost var closes: nat

    constructor (ep: Endpoint, ghost serial: nat)
      ensures this.ep == ep && this.serial == serial && closes == 0
    {
      this.ep, this.serial, closes := ep, serial, 0;
    }

    method Close()
      modifies this
      ensures closes == old(closes) + 1
    {
      closes := closes + 1;
    }
  }

  /** In a well-formed store, the record handed to the pool is the stored one. */
  lemma SecretIsRecord(st: Store, id: string)
    requires Inv(st.S()) && id in st.vcenters
    ensures st.GetVCenterSecret(id) == Some(st.vcenters[id]) && EndpointNormal(st.vcenters[id])
    ensures st.vcenters[id].id == id
  {
    assert RecordOk(id, st.vcenters[id]);
  }

  /** NewClient: refuses an empty password, fills in defaults, makes the cache directory. */
  method NewClient(ep: Endpoint, writable: bool, ghost serial: nat) returns (c: Client?, ghost dirOk: bool)
    ensures c != null <==> ep.password != "" && dirOk
    ensures writable ==> dirOk
    ensures c != null ==> fresh(c) && c.ep == Normalized(ep) && c.serial == serial && c.closes == 0
  {
    var made: bool := *;
    made := made || writable;
    dirOk := made;
    c := null;
    if ep.password != "" && made {
      c := new Client(Normalized(ep), serial);
    }
  }

  class Pool {
    const isoCache: string
    /** The cache directory can be made. */
    const writable: bool
    var clients: map<string, Client>
    /** Every client ever created, by serial number. */
    ghost var created: seq<Client>

    constructor (isoCache: string, writable: bool)
      ensures Valid() && Abs() == PoolState(map[], []) && this.isoCache == isoCache && this.writable == writable
      ensures fresh(created)
    {
      this.isoCache, this.writable := isoCache, writable;
      clients, created := map[], [];
    }

    /** Serial numbers are positions in created. */
    ghost predicate Numbered()
      reads this
    {
      && (forall n :: 0 <= n < |created| ==> created[n].serial == n)
      && (forall id :: id in clients ==> clients[id].serial < |created| && created[clients[id].serial] == clients[id])
    }

    ghost predicate Valid()
      reads this, created
    {
      Numbered() && PoolOk(Abs())
    }

    ghost function Pooleds(): map<string, Pooled>
      reads this
    {
      map id | id in clients :: Pooled(clients[id].serial, clients[id].ep)
    }

    ghost function Closes(): seq<nat>
      reads this, created
    {
      seq(|created|, n requires 0 <= n < |created| reads this, created => created[n].closes)
    }

    ghost function Abs(): PoolState
      reads this, created
    {
      PoolState(Pooleds(), Closes())
    }

    /** Close and forget the client of id. */
    method Drop(id: string)
      requires Numbered() && id in clients
      modifies this`clients, clients[id]
      ensures Numbered() && Abs() == Dropped(old(Abs()), id) && created == old(created)
      ensures clients == old(clients) - {id}
    {
      var c := clients[id];
      ghost var p := Abs();
      c.Close();
      clients := clients - {id};
      assert Closes() == p.closes[c.serial := p.closes[c.serial] + 1];
      assert Pooleds() == p.clients - {id};
    }

    /** A new client under a free id. */
    method Add(id: string, ep: Endpoint) returns (r: Client?, ghost dirOk: bool)
      requires Numbered() && id !in clients
      modifies this
      ensures Numbered() && (r == null <==> ep.password == "" || !dirOk) && (writable ==> dirOk)
      ensures r == null ==> clients == old(clients) && created == old(created) && Abs() == old(Abs())
      ensures r != null ==>
                Abs() == PoolState(old(Pooleds())[id := Pooled(|old(Closes())|, Normalized(ep))], old(Closes()) + [0])
      ensures r != null ==> fresh(r) && created == old(created) + [r] && clients == old(clients)[id := r]
      ensures r != null ==> r.ep == Normalized(ep) && r.serial == |old(created)| && r.closes == 0
    {
      hide Normalized;
      ghost var q := Abs();
      r, dirOk := NewClient(ep, writable, |created|);
      if r != null {
        clients := clients[id := r];
        created := created + [r];
        assert Closes() == q.closes + [0];
        assert Pooleds() == q.clients[id := Pooled(|q.closes|, Normalized(ep))];
      } else {
        assert Closes() == q.closes;
      }
    }

    /** The miss path of For. */
    method Replace(vc: VCenter, ep: Endpoint) returns (r: Client?, ghost dirOk: bool)
      requires Numbered() && ep == EndpointFrom(vc, isoCache)
      modifies this, created
      ensures Numbered()
      ensures var q := Dropped(old(Abs()), vc.id);
              Abs() == if vc.password == "" || !dirOk then q
                       else PoolState(q.clients[vc.id := Pooled(|q.closes|, Normalized(ep))], q.closes + [0])
      ensures old(created) <= created && fresh(created[|old(created)|..])
      ensures (r == null <==> vc.password == "" || !dirOk) && (writable ==> dirOk)
      ensures r != null ==> vc.id in clients && clients[vc.id] == r && r.ep == Normalized(ep)
    {
      if vc.id in clients {
        Drop(vc.id);
      }
      r, dirOk := Add(vc.id, ep);
    }

    /** For: the client for a record. dirOk tells how the attempt to make the directory went. */
    method For(vc: VCenter) returns (r: Client?, ghost dirOk: bool)
      requires Valid()
      modifies this, created
      ensures Valid() && Abs() == PoolSpec.For(old(Abs()), vc, isoCache, dirOk).0
      ensures old(created) <= created && fresh(created[|old(created)|..])
      ensures (r == null <==> PoolSpec.For(old(Abs()), vc, isoCache, dirOk).1.None?) && (writable ==> dirOk)
      ensures r != null ==> vc.id in clients && clients[vc.id] == r
    {
      var ep := EndpointFrom(vc, isoCache);
      dirOk := true;
      if vc.id in clients && SameEndpoint(clients[vc.id].ep, ep) {
        return clients[vc.id], dirOk;
      }
      ghost var p := Abs();
      r, dirOk := Replace(vc, ep);
      ForKeepsOk(p, vc, isoCache, dirOk);
    }

    /** For a record that is normalized, as every stored one is. */
    method ForStored(vc: VCenter) returns (r: Client?)
      requires Valid() && EndpointNormal(vc)
      modifies this, created
      ensures Valid() && old(created) <= created && fresh(created[|old(created)|..])
      ensures r != null ==> vc.id in clients && clients[vc.id] == r && r.ep.id == vc.id && r.closes == 0
      ensures r != null ==> SameEndpoint(r.ep, EndpointFrom(vc, isoCache)) && EndpointOf(r.ep, vc)
      ensures r == null ==> vc.id !in clients
      ensures writable ==> (r == null <==>
                vc.password == "" && !old(vc.id in clients && EndpointOf(clients[vc.id].ep, vc)))
    {
      ghost var p := Abs();
      ghost var dirOk;
      r, dirOk := For(vc);
      ForIsCoherent(p, vc, isoCache, dirOk);
      if r != null {
        assert Abs().clients[vc.id] == Pooled(r.serial, r.ep);
        assert Abs().closes[r.serial] == 0;
      } else {
        assert vc.id !in Abs().clients;
      }
    }

    method Invalidate(id: string)
      requires Valid()
      modifies this`clients, created
      ensures Valid() && Abs() == Dropped(old(Abs()), id) && created == old(created)
    {
      DroppedOk(Abs(), id);
      if id in clients {
        Drop(id);
      }
    }

    /** Every client is closed, each once; the order is that of the map. */
    method CloseAll()
      requires Valid()
      modifies this`clients, created
      ensures Valid() && clients == map[] && created == old(created)
    {
      while clients != map[]
        invariant Valid() && created == old(created)
        decreases clients.Keys
      {
        var id :| id in clients;
        DroppedOk(Abs(), id);
        Drop(id);
      }
    }

    /** The second half of ClientForUUID: the record is read, then the pool is asked. */
    method ReadAndAsk(st: Store, id: string) returns (r: Client?, ghost read: nat)
      requires Valid() && st.Valid() && Inv(st.S())
      modifies this, created, st, st.disk
      ensures Valid() && st.Valid() && Inv(st.S()) && st.Extends()
      ensures old(created) <= created && fresh(created[|old(created)|..])
      ensures |old(st.passed)| - 1 <= read < |st.passed|
      ensures r != null ==>
                && r.ep.id == id && id in st.passed[read].vcenters
                && SameEndpoint(r.ep, EndpointFrom(st.passed[read].vcenters[id], isoCache))
                && EndpointOf(r.ep, st.passed[read].vcenters[id])
                && id in clients && clients[id] == r && r.closes == 0
      ensures r == null && id in st.passed[read].vcenters ==>
                id !in clients && (writable ==> st.passed[read].vcenters[id].password == "")
    {
      hide Inv, PoolOk, EndpointNormal, Store.HistoryOk;
      Here(st);
      read := |st.ops|;
      var full := st.GetVCenterSecret(id);
      if full.None? {
        return null, read;
      }
      SecretIsRecord(st, id);
      r := ForStored(full.value);
      StoreEdits(st);
      Here(st);
    }

    /** ClientForUUID: the UUID is looked up, then the record is read, then the pool is asked; other
        callers may edit the store in between. looked and read are the positions in the store's
        history of the two states that were seen. */
    method ClientForUUID(st: Store, uuid: string) returns (r: Client?, ghost looked: nat, ghost read: nat)
      requires Valid() && st.Valid() && Inv(st.S())
      modifies this, created, st, st.disk
      ensures Valid() && st.Valid() && Inv(st.S()) && st.Extends()
      ensures old(created) <= created && fresh(created[|old(created)|..])
      ensures |old(st.passed)| - 1 <= looked <= read < |st.passed|
      ensures r != null ==>
                && MapsTo(st.passed[looked], uuid, r.ep.id) && r.ep.id in st.passed[read].vcenters
                && SameEndpoint(r.ep, EndpointFrom(st.passed[read].vcenters[r.ep.id], isoCache))
                && EndpointOf(r.ep, st.passed[read].vcenters[r.ep.id])
                && r.ep.id in clients && clients[r.ep.id] == r && r.closes == 0
      ensures r == null ==>
                forall id :: MapsTo(st.passed[looked], uuid, id) && id in st.passed[read].vcenters ==>
                  id !in clients && (writable ==> st.passed[read].vcenters[id].password == "")
    {
      hide Inv, PoolOk, SameEndpoint, Store.HistoryOk;
      Here(st);
      looked, read := |st.ops|, |st.ops|;
      var m := st.LookupUUID(uuid);
      if m.None? {
        return null, looked, read;
      }
      assert MapsTo(st.S(), uuid, m.value.vcenterId);
      StoreEdits(st);
      r, read := ReadAndAsk(st, m.value.vcenterId);
    }
  }

  /** What other callers do to the store meanwhile. */
  method StoreEdits(st: Store)
    requires st.Valid() && Inv(st.S())
    modifies st, st.disk
    ensures st.Valid() && Inv(st.S()) && st.Extends()
  {
    hide Inv, Store.HistoryOk;
    Here(st);
    var n: nat := *;
    ghost var k := |st.ops|;
    while n > 0
      invariant st.Valid() && st.Extends()
    {
      OneEdit(st);
      n := n - 1;
    }
    StillInv(st, k);
  }

  lemma Here(st: Store)
    requires st.Valid()
    ensures |st.passed| == |st.ops| + 1 && st.passed[|st.ops|] == st.S()
  {
  }

  lemma StillInv(st: Store, k: nat)
    requires st.Valid() && k < |st.passed| && Inv(st.passed[k])
    ensures Inv(st.S())
  {
    hide Inv, Step;
    var states, ops := st.passed[k..], st.ops[k..];
    forall i | 0 <= i < |ops| ensures Step(states[i], ops[i], states[i + 1]) {
      assert Step(st.passed[k + i], st.ops[k + i], st.passed[k + i + 1]);
    }
    RunKeepsInv(states, ops, |ops|);
  }

  method OneEdit(st: Store)
    requires st.Valid()
    modifies st, st.disk
    ensures st.Valid() && st.Extends()
  {
    hide *;
    var ofRecord: bool := *;
    if ofRecord {
      RecordEdit(st);
    } else {
      OtherEdit(st);
    }
  }

  method RecordEdit(st: Store)
    requires st.Valid()
    modifies st, st.disk
    ensures st.Valid() && st.Extends()
  {
    hide Matches, Merged, UpsertRecord, StoredUnder, Put, PutAt;
    var kind: nat, vc: VCenter, id: string, newId: string := *, *, *, *;
    if kind == 0 && newId != "" && newId !in st.vcenters {
      var _ := st.UpsertVCenter(vc, newId);
    } else if kind == 1 && newId != "" && newId !in st.vcenters {
      var _ := st.ApplyConfigVCenter(vc, None, id, newId);
    } else if kind == 2 {
      var _ := st.SetVCenterConfigMap(id, newId, Runtime, None);
    } else {
      var _ := st.DeleteVCenter(id);
    }
  }

  method OtherEdit(st: Store)
    requires st.Valid()
    modifies st, st.disk
    ensures st.Valid() && st.Extends()
  {
    var kind: nat, m: Mapping, id: string, on: bool := *, *, *, *;
    if kind == 0 {
      var _ := st.UpsertMapping(m);
    } else if kind == 1 {
      var _ := st.DeleteMapping(id);
    } else if kind == 2 {
      var _ := st.SetVCenterDryRun(id, on);
    } else {
      var _ := st.SetGlobalDryRun(on);
    }
  }
}
