/** `ShipmentApiService`: paging of an order's shipments and forwarding to the storage service. */
module ShipmentApi {
  import opened Wrappers
  import opened Sequences
  import opened Paging
  import opened Orders
  import opened Shipping

  class ShipmentApiService {
    const shipmentService: ShipmentService

    constructor (shipmentService: ShipmentService)
      ensures this.shipmentService == shipmentService
    {
      this.shipmentService := shipmentService;
    }

    /**
     * `GetShipmentsForOrderAsync`: page `page - 1` of size `limit` of the
     * order's shipments, in storage order. `sinceId` is accepted and ignored.
     */
    function GetShipmentsForOrder(order: Order, limit: int, page: int, sinceId: int): (r: seq<Shipment>)
      reads shipmentService
      ensures |r| <= PageCapacity(limit)
      ensures forall s :: s in r ==> s in shipmentService.shipments && s.orderId == order.id
      ensures |r| == PageLength(|shipmentService.GetShipmentsByOrderId(order.id)|, page - 1, limit)
      ensures forall k :: 0 <= k < |r| ==>
                PageStart(page - 1, limit) + k < |shipmentService.GetShipmentsByOrderId(order.id)| &&
                r[k] == shipmentService.GetShipmentsByOrderId(order.id)[PageStart(page - 1, limit) + k]
    {
      var orderShipments := shipmentService.GetShipmentsByOrderId(order.id);
      PageBounds(orderShipments, page - 1, limit);
      ApiPage(orderShipments, page - 1, limit)
    }

    /** `GetShipmentByIdAsync`: the storage lookup, unchanged. */
    function GetShipmentById(shipmentId: int): (r: Option<Shipment>)
      reads shipmentService
      ensures r.Some? ==> r.value in shipmentService.shipments && r.value.id == shipmentId
      ensures r.None? <==> forall s :: s in shipmentService.shipments ==> s.id != shipmentId
    {
      shipmentService.GetShipmentById(shipmentId)
    }

    /** `DeleteShipmentAsync`: forwards its argument to the storage delete. */
    method DeleteShipment(shipment: Option<Shipment>) returns (faulted: bool)
      requires shipmentService.Valid()
      modifies shipmentService`shipments
      ensures shipmentService.Valid()
      ensures faulted <==> shipment.None?
      ensures shipmentService.shipments ==
                if shipment.None? then old(shipmentService.shipments)
                else RemoveById(old(shipmentService.shipments), shipment.value.id)
    {
      faulted := shipmentService.DeleteShipment(shipment);
    }

    /** `UpdateShipmentAsync`: forwards its argument to the storage update. */
    method UpdateShipment(shipment: Shipment)
      requires shipmentService.Valid()
      modifies shipmentService`shipments
      ensures shipmentService.Valid()
      ensures shipmentService.shipments == ReplaceById(old(shipmentService.shipments), shipment)
      ensures old(shipmentService.GetShipmentById(shipment.id)).Some? ==>
                shipmentService.GetShipmentById(shipment.id) == Some(shipment)
    {
      shipmentService.UpdateShipment(shipment);
    }

    /** `InsertShipmentAsync`: forwards its argument to the storage insert. */
    method InsertShipment(newShipment: Shipment) returns (stored: Shipment)
      requires shipmentService.Valid()
      modifies shipmentService`shipments, shipmentService`nextId
      ensures shipmentService.Valid()
      ensures stored == newShipment.(id := old(shipmentService.nextId))
      ensures shipmentService.shipments == old(shipmentService.shipments) + [stored]
      ensures shipmentService.nextId == old(shipmentService.nextId) + 1
      ensures shipmentService.GetShipmentById(stored.id) == Some(stored)
    {
      stored := shipmentService.InsertShipment(newShipment);
    }

    /** `InsertShipmentItemsAsync`: stores each item once, in list order. */
    method InsertShipmentItems(newShipmentItems: seq<ShipmentItem>)
      modifies shipmentService`shipmentItems
      ensures shipmentService.shipmentItems == old(shipmentService.shipmentItems) + newShipmentItems
    {
      for i := 0 to |newShipmentItems|
        invariant shipmentService.shipmentItems == old(shipmentService.shipmentItems) + newShipmentItems[..i]
      {
        shipmentService.InsertShipmentItem(newShipmentItems[i]);
        assert newShipmentItems[..i + 1] == newShipmentItems[..i] + [newShipmentItems[i]];
      }
      assert newShipmentItems[..|newShipmentItems|] == newShipmentItems;
    }
  }

  /** The page of an order's shipments does not depend on the cursor passed with it. */
  lemma ShipmentsPageIgnoresSinceId(api: ShipmentApiService, order: Order, limit: int, page: int, sinceId1: int, sinceId2: int)
    ensures api.GetShipmentsForOrder(order, limit, page, sinceId1) == api.GetShipmentsForOrder(order, limit, page, sinceId2)
  {
  }
}
