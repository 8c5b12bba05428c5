/**
 * The shipment records (nopCommerce's `Shipment` and `ShipmentItem`) and the
 * storage service behind `IShipmentService`. The storage is not part of the
 * plugin: it is modelled as the sequences it holds, with the lookup, insert,
 * update and delete semantics the plugin relies on.
 */
module Shipping {
  import opened Wrappers
  import opened Sequences

  /** A shipment; `null` strings are `""`, `decimal` weight and `DateTime`s are opaque integers. */
  datatype Shipment = Shipment(
    id: int,
    orderId: int,
    trackingNumber: string,
    adminComment: string,
    totalWeight: int,
    createdOnUtc: int,
    shippedDateUtc: Option<int>,
    deliveryDateUtc: Option<int>,
    readyForPickupDateUtc: Option<int>)

  /** One shipped line: which order item, how many, from which warehouse, in which shipment. */
  datatype ShipmentItem = ShipmentItem(orderItemId: int, quantity: int, warehouseId: int, shipmentId: int)

  /** `new Shipment { OrderId = orderId, CreatedOnUtc = now }`: every other property at its default. */
  function NewShipment(orderId: int, now: int): (r: Shipment)
    ensures r.id == 0 && r.orderId == orderId && r.createdOnUtc == now
    ensures r.trackingNumber == "" && r.adminComment == "" && r.totalWeight == 0
    ensures r.shippedDateUtc == None && r.deliveryDateUtc == None && r.readyForPickupDateUtc == None
  {
    Shipment(0, orderId, "", "", 0, now, None, None, None)
  }

  /** The stored shipment with id `id` (the first, should there be several), or `None`. */
  function FindById(shipments: seq<Shipment>, id: int): (r: Option<Shipment>)
    ensures r.Some? ==> r.value in shipments && r.value.id == id
    ensures r.None? <==> forall s :: s in shipments ==> s.id != id
  {
    FirstWhere(shipments, (s: Shipment) => s.id == id)
  }

  /** Every stored shipment with the id of `s` replaced by `s`. */
  function ReplaceById(shipments: seq<Shipment>, s: Shipment): (r: seq<Shipment>)
    ensures |r| == |shipments|
    ensures forall k :: 0 <= k < |r| ==> r[k] == if shipments[k].id == s.id then s else shipments[k]
  {
    if shipments == [] then []
    else [if shipments[0].id == s.id then s else shipments[0]] + ReplaceById(shipments[1..], s)
  }

  /** A replacement keeps every position's id, so bounds on ids and their uniqueness carry over. */
  lemma ReplaceKeepsIds(shipments: seq<Shipment>, s: Shipment, bound: int)
    requires forall t :: t in shipments ==> 0 < t.id < bound
    requires UniqueShipmentIds(shipments)
    ensures forall k :: 0 <= k < |shipments| ==> ReplaceById(shipments, s)[k].id == shipments[k].id
    ensures forall t :: t in ReplaceById(shipments, s) ==> 0 < t.id < bound
    ensures UniqueShipmentIds(ReplaceById(shipments, s))
  {
    var r := ReplaceById(shipments, s);
    assert forall k :: 0 <= k < |r| ==> r[k].id == shipments[k].id;
    forall t | t in r ensures 0 < t.id < bound {
      var k :| 0 <= k < |r| && r[k] == t;
      assert shipments[k] in shipments;
    }
  }

  /** After a replacement, looking up the replaced id finds the replacement, if the id was stored. */
  lemma {:induction false} FindAfterReplace(shipments: seq<Shipment>, s: Shipment)
    ensures FindById(shipments, s.id).Some? ==> FindById(ReplaceById(shipments, s), s.id) == Some(s)
    ensures FindById(shipments, s.id).None? ==> ReplaceById(shipments, s) == shipments
  {
    if shipments != [] {
      var r := ReplaceById(shipments, s);
      assert r == [r[0]] + ReplaceById(shipments[1..], s);
      assert r[1..] == ReplaceById(shipments[1..], s);
      FindAfterReplace(shipments[1..], s);
    }
  }

  /** Every stored shipment except those with id `id`, in order. */
  function RemoveById(shipments: seq<Shipment>, id: int): (r: seq<Shipment>)
    ensures forall s :: s in r <==> s in shipments && s.id != id
    ensures KeepsExactly(r, shipments, (s: Shipment) => s.id != id)
  {
    Filter(shipments, (s: Shipment) => s.id != id)
  }

  /** No two stored shipments share an id, as in a table keyed by `Id`. */
  predicate UniqueShipmentIds(shipments: seq<Shipment>) {
    forall i, j :: 0 <= i < j < |shipments| ==> shipments[i].id != shipments[j].id
  }

  /** The tail of a list with unique ids has unique ids, none of them the head's. */
  lemma TailUniqueIds(shipments: seq<Shipment>)
    requires shipments != [] && UniqueShipmentIds(shipments)
    ensures UniqueShipmentIds(shipments[1..])
    ensures forall t :: t in shipments[1..] ==> t.id != shipments[0].id
  {
    var tail := shipments[1..];
    forall i, j | 0 <= i < j < |tail| ensures tail[i].id != tail[j].id {
      assert tail[i] == shipments[i + 1] && tail[j] == shipments[j + 1];
    }
    forall t | t in tail ensures t.id != shipments[0].id {
      var m :| 0 <= m < |tail| && tail[m] == t;
      assert tail[m] == shipments[m + 1];
    }
  }

  /** Putting a shipment with a new id in front of a list with unique ids keeps them unique. */
  lemma ConsUniqueIds(x: Shipment, rest: seq<Shipment>)
    requires UniqueShipmentIds(rest) && forall t :: t in rest ==> t.id != x.id
    ensures UniqueShipmentIds([x] + rest)
  {
    var r := [x] + rest;
    forall i, j | 0 <= i < j < |r| ensures r[i].id != r[j].id {
      assert r[j] == rest[j - 1];
      if i == 0 {
        assert rest[j - 1] in rest;
      } else {
        assert r[i] == rest[i - 1];
      }
    }
  }

  /** Removing shipments keeps the remaining ids unique. */
  lemma {:induction false} RemoveKeepsUniqueIds(shipments: seq<Shipment>, id: int)
    requires UniqueShipmentIds(shipments)
    ensures UniqueShipmentIds(RemoveById(shipments, id))
  {
    if shipments != [] {
      var tail := shipments[1..];
      TailUniqueIds(shipments);
      RemoveKeepsUniqueIds(tail, id);
      var rest := RemoveById(tail, id);
      assert shipments == [shipments[0]] + tail;
      if shipments[0].id != id {
        assert RemoveById(shipments, id) == [shipments[0]] + rest;
        ConsUniqueIds(shipments[0], rest);
      } else {
        assert RemoveById(shipments, id) == rest;
      }
    }
  }

  /** The `IShipmentService` storage: shipments, shipment items and the next identity value. */
  class ShipmentService {
    var shipments: seq<Shipment>
    var shipmentItems: seq<ShipmentItem>
    var nextId: int

    /** Stored ids are positive, below the next identity value, and unique. */
    ghost predicate Valid()
      reads this
    {
      nextId > 0 && (forall s :: s in shipments ==> 0 < s.id < nextId) && UniqueShipmentIds(shipments)
    }

    constructor ()
      ensures Valid() && shipments == [] && shipmentItems == [] && nextId == 1
    {
      shipments, shipmentItems, nextId := [], [], 1;
    }

    /** `GetShipmentsByOrderIdAsync`: the order's shipments in storage order. */
    function GetShipmentsByOrderId(orderId: int): (r: seq<Shipment>)
      reads this
      ensures forall s :: s in r <==> s in shipments && s.orderId == orderId
      ensures KeepsExactly(r, shipments, (s: Shipment) => s.orderId == orderId)
    {
      Filter(shipments, (s: Shipment) => s.orderId == orderId)
    }

    /** `GetShipmentByIdAsync`: the shipment with that id, or `null`. */
    function GetShipmentById(shipmentId: int): (r: Option<Shipment>)
      reads this
      ensures r.Some? ==> r.value in shipments && r.value.id == shipmentId
      ensures r.None? <==> forall s :: s in shipments ==> s.id != shipmentId
    {
      FindById(shipments, shipmentId)
    }

    /** `InsertShipmentAsync`: stores `s` under a fresh id and hands back the stored record. */
    method InsertShipment(s: Shipment) returns (stored: Shipment)
      requires Valid()
      modifies this`shipments, this`nextId
      ensures Valid()
      ensures stored == s.(id := old(nextId))
      ensures shipments == old(shipments) + [stored] && nextId == old(nextId) + 1
      ensures GetShipmentById(stored.id) == Some(stored)
    {
      stored := s.(id := nextId);
      shipments := shipments + [stored];
      nextId := nextId + 1;
      assert forall k :: 0 <= k < |shipments| - 1 ==> shipments[k] in old(shipments);
      assert forall t :: t in shipments && t.id == stored.id ==> t == stored;
    }

    /** `UpdateShipmentAsync`: the stored shipment with the id of `s` becomes `s`. */
    method UpdateShipment(s: Shipment)
      requires Valid()
      modifies this`shipments
      ensures Valid()
      ensures shipments == ReplaceById(old(shipments), s)
      ensures old(GetShipmentById(s.id)).Some? ==> GetShipmentById(s.id) == Some(s)
    {
      FindAfterReplace(shipments, s);
      ReplaceKeepsIds(shipments, s, nextId);
      shipments := ReplaceById(shipments, s);
    }

    /**
     * `DeleteShipmentAsync`: removes the shipment. Handed `null`, the
     * repository throws (nopCommerce's repository rejects a null entity);
     * that is `faulted`, and nothing changes.
     */
    method DeleteShipment(shipment: Option<Shipment>) returns (faulted: bool)
      requires Valid()
      modifies this`shipments
      ensures Valid()
      ensures faulted <==> shipment.None?
      ensures shipments == if shipment.None? then old(shipments) else RemoveById(old(shipments), shipment.value.id)
    {
      if shipment.None? {
        return true;
      }
      RemoveKeepsUniqueIds(shipments, shipment.value.id);
      shipments := RemoveById(shipments, shipment.value.id);
      return false;
    }

    /** `InsertShipmentItemAsync`: stores one shipment item. */
    method InsertShipmentItem(item: ShipmentItem)
      modifies this`shipmentItems
      ensures shipmentItems == old(shipmentItems) + [item]
    {
      shipmentItems := shipmentItems + [item];
    }
  }
}
