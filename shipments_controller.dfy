/**
 * `ShipmentsController`: the request rules of the five shipment endpoints
 * under `/api/orders/{orderId}/shipments`. Authorization, routing, logging and
 * DTO preparation are outside the model; a response is the outcome datatype
 * below, where a JSON body is the `ShipmentsRootObject` that would be
 * serialized, with its field selection.
 */
module Controllers {
  import opened Wrappers
  import opened Paging
  import opened Orders
  import opened Shipping
  import opened ShipmentDtos
  import opened ShipmentApi
  import opened ShipmentsParameters
  import OrderApi
  import Configurations

  datatype Response =
    /** 200: the `"shipments"` root object holding these shipments, serialized with this field selection. */
    | ShipmentsJson(shipments: seq<Shipment>, fields: string)
    /** 200: the literal body `{}`. */
    | EmptyJson
    /** 400 with an error on the named parameter. */
    | BadRequest(field: string)
    /** 404 with an error on the named resource. */
    | NotFound(field: string)
    /** The model-state validation errors of the payload. */
    | ModelStateErrors
    /** An exception escaping the action. */
    | Unhandled

  /** One `ShipmentItem` per DTO item, in order, each carrying `shipmentId`. */
  function ToShipmentItems(dtos: seq<ShipmentItemDto>, shipmentId: int): (items: seq<ShipmentItem>)
    ensures |items| == |dtos|
    ensures forall k :: 0 <= k < |items| ==>
              && items[k].orderItemId == dtos[k].orderItemId
              && items[k].quantity == dtos[k].quantity
              && items[k].warehouseId == dtos[k].warehouseId
              && items[k].shipmentId == shipmentId
  {
    if dtos == [] then []
    else [ShipmentItem(dtos[0].orderItemId, dtos[0].quantity, dtos[0].warehouseId, shipmentId)]
         + ToShipmentItems(dtos[1..], shipmentId)
  }

  /**
   * The shipment an update stores: the payload merged onto `before`, then its
   * creation time put back, so the payload cannot change it.
   */
  function MergeKeepingCreatedOn(delta: ShipmentDelta, before: Shipment): (u: Shipment)
    reads delta.dto
    ensures u.id == before.id && u.orderId == before.orderId && u.createdOnUtc == before.createdOnUtc
    ensures forall f :: f != CreatedOnUtc ==> ShipmentField(u, f) == ShipmentField(Merge(delta, before), f)
  {
    Merge(delta, before).(createdOnUtc := before.createdOnUtc)
  }

  /** The range `[MinLimit, MaxLimit]` a list request's `limit` must lie in. */
  predicate LimitInRange(limit: int) {
    Configurations.MinLimit <= limit <= Configurations.MaxLimit
  }

  class ShipmentsController {
    /** The order table behind `IOrderApiService.GetOrderById`. */
    const orderTable: seq<Order>
    const shipmentApiService: ShipmentApiService

    constructor (orderTable: seq<Order>, shipmentApiService: ShipmentApiService)
      ensures this.orderTable == orderTable && this.shipmentApiService == shipmentApiService
    {
      this.orderTable := orderTable;
      this.shipmentApiService := shipmentApiService;
    }

    /** `GET /api/orders/{orderId}/shipments`: limit check, then page check, then the order, then one page. */
    method GetOrderShipments(orderId: int, parameters: ShipmentsParametersModel) returns (r: Response)
      ensures !LimitInRange(parameters.limit) ==> r == BadRequest("limit")
      ensures LimitInRange(parameters.limit) && parameters.page < Configurations.DefaultPageValue ==> r == BadRequest("page")
      ensures (LimitInRange(parameters.limit) && parameters.page >= Configurations.DefaultPageValue) ==>
                match OrderApi.GetOrderById(orderTable, orderId)
                    case None => r == NotFound("order")
                    case Some(order) =>
                      r == ShipmentsJson(shipmentApiService.GetShipmentsForOrder(order, parameters.limit,
                                           parameters.page, parameters.sinceId), parameters.fields)
      ensures r.ShipmentsJson? ==>
                |r.shipments| <= PageCapacity(parameters.limit)
                && forall s :: s in r.shipments ==> s in shipmentApiService.shipmentService.shipments && s.orderId == orderId
    {
      if parameters.limit < Configurations.MinLimit || parameters.limit > Configurations.MaxLimit {
        return BadRequest("limit");
      }
      if parameters.page < Configurations.DefaultPageValue {
        return BadRequest("page");
      }
      var order := OrderApi.GetOrderById(orderTable, orderId);
      if order.None? {
        return NotFound("order");
      }
      var allShipmentsForOrder := shipmentApiService.GetShipmentsForOrder(order.value, parameters.limit,
                                                                          parameters.page, parameters.sinceId);
      r := ShipmentsJson(allShipmentsForOrder, parameters.fields);
    }

    /** `GET .../shipments/{shipmentId}`: the order must exist; the shipment's own order is not checked. */
    method GetShipmentByIdForOrder(orderId: int, shipmentId: int, fields: string) returns (r: Response)
      ensures OrderApi.GetOrderById(orderTable, orderId).None? ==> r == NotFound("order")
      ensures OrderApi.GetOrderById(orderTable, orderId).Some? ==>
                match shipmentApiService.GetShipmentById(shipmentId)
                case None => r == NotFound("shipment")
                case Some(shipment) => r == ShipmentsJson([shipment], fields)
    {
      var order := OrderApi.GetOrderById(orderTable, orderId);
      if order.None? {
        return NotFound("order");
      }
      var shipment := shipmentApiService.GetShipmentById(shipmentId);
      if shipment.None? {
        return NotFound("shipment");
      }
      r := ShipmentsJson([shipment.value], fields);
    }

    /**
     * `POST .../shipments`: a new shipment for the order created now, the
     * payload merged onto it (a payload `created_on_utc` is kept), stored,
     * then one stored item per payload item.
     */
    method CreateShipment(orderId: int, shipmentDelta: ShipmentDelta, modelStateValid: bool, now: int)
      returns (r: Response)
      requires shipmentApiService.shipmentService.Valid()
      modifies shipmentApiService.shipmentService, shipmentDelta.dto`shipmentItemsField
      ensures shipmentApiService.shipmentService.Valid()
      ensures !modelStateValid ==> r == ModelStateErrors
      ensures modelStateValid && OrderApi.GetOrderById(orderTable, orderId).None? ==> r == NotFound("order")
      ensures !r.ShipmentsJson? ==>
                unchanged(shipmentApiService.shipmentService) && unchanged(shipmentDelta.dto)
      ensures modelStateValid && OrderApi.GetOrderById(orderTable, orderId).Some? ==>
                var created := old(Merge(shipmentDelta, NewShipment(orderId, now))).(id := old(shipmentApiService.shipmentService.nextId));
                && r == ShipmentsJson([created], "")
                && shipmentApiService.shipmentService.shipments == old(shipmentApiService.shipmentService.shipments) + [created]
                && shipmentApiService.shipmentService.shipmentItems
                   == old(shipmentApiService.shipmentService.shipmentItems)
                      + ToShipmentItems(old(shipmentDelta.dto.ShipmentItemsValue()), created.id)
                && shipmentApiService.GetShipmentById(created.id) == Some(created)
                && shipmentApiService.shipmentService.nextId == old(shipmentApiService.shipmentService.nextId) + 1
      ensures shipmentDelta.dto.ShipmentItemsValue() == old(shipmentDelta.dto.ShipmentItemsValue())
      ensures r.ShipmentsJson? ==>
                && r.shipments[0].orderId == orderId
                && r.shipments[0].createdOnUtc
                   == if CreatedOnUtcName in shipmentDelta.present then old(shipmentDelta.dto.createdOnUtc) else now
    {
      if !modelStateValid {
        return ModelStateErrors;
      }
      var order := OrderApi.GetOrderById(orderTable, orderId);
      if order.None? {
        return NotFound("order");
      }
      var newShipment := NewShipment(orderId, now);
      newShipment := Merge(shipmentDelta, newShipment);
      assert ShipmentField(newShipment, CreatedOnUtc) ==
        if WireName(CreatedOnUtc) in shipmentDelta.present then DtoField(shipmentDelta.dto, CreatedOnUtc)
        else ShipmentField(NewShipment(orderId, now), CreatedOnUtc);
      newShipment := shipmentApiService.InsertShipment(newShipment);

      var dtoItems := shipmentDelta.dto.ShipmentItems();
      var shipmentItems := ToShipmentItems(dtoItems.elems, newShipment.id);
      shipmentApiService.InsertShipmentItems(shipmentItems);

      r := ShipmentsJson([newShipment], "");
    }

    /**
     * `PUT .../shipments/{shipmentId}`: the shipment must exist and belong to
     * the order; the payload is merged onto it and `CreatedOnUtc` restored.
     */
    method UpdateShipment(orderId: int, shipmentId: int, shipmentDelta: ShipmentDelta, modelStateValid: bool)
      returns (r: Response)
      requires shipmentApiService.shipmentService.Valid()
      modifies shipmentApiService.shipmentService
      ensures shipmentApiService.shipmentService.Valid()
      ensures !modelStateValid ==> r == ModelStateErrors
      ensures modelStateValid && OrderApi.GetOrderById(orderTable, orderId).None? ==> r == NotFound("order")
      ensures modelStateValid && OrderApi.GetOrderById(orderTable, orderId).Some? ==>
                match FindById(old(shipmentApiService.shipmentService.shipments), shipmentId)
                case None => r == NotFound("shipment")
                case Some(before) =>
                  if before.orderId != orderId then r == NotFound("shipment")
                  else
                    var updated := MergeKeepingCreatedOn(shipmentDelta, before);
                    && r == ShipmentsJson([updated], "")
                    && shipmentApiService.shipmentService.shipments
                       == ReplaceById(old(shipmentApiService.shipmentService.shipments), updated)
                    && FindById(shipmentApiService.shipmentService.shipments, shipmentId) == Some(updated)
      ensures !r.ShipmentsJson? ==> unchanged(shipmentApiService.shipmentService)
      ensures shipmentApiService.shipmentService.shipmentItems == old(shipmentApiService.shipmentService.shipmentItems)
      ensures shipmentApiService.shipmentService.nextId == old(shipmentApiService.shipmentService.nextId)
    {
      if !modelStateValid {
        return ModelStateErrors;
      }
      var order := OrderApi.GetOrderById(orderTable, orderId);
      if order.None? {
        return NotFound("order");
      }
      var shipmentToUpdate := shipmentApiService.GetShipmentById(shipmentId);
      if shipmentToUpdate.None? || shipmentToUpdate.value.orderId != orderId {
        return NotFound("shipment");
      }
      var shipment := StoreUpdate(shipmentToUpdate.value, shipmentDelta);
      r := ShipmentsJson([shipment], "");
    }

    /** The step of an update after its checks: merge, put the creation time back, store. */
    method StoreUpdate(shipmentToUpdate: Shipment, shipmentDelta: ShipmentDelta) returns (shipment: Shipment)
      requires shipmentApiService.shipmentService.Valid()
      modifies shipmentApiService.shipmentService
      ensures shipmentApiService.shipmentService.Valid()
      ensures shipment == MergeKeepingCreatedOn(shipmentDelta, shipmentToUpdate)
      ensures shipmentApiService.shipmentService.shipments == ReplaceById(old(shipmentApiService.shipmentService.shipments), shipment)
      ensures old(FindById(shipmentApiService.shipmentService.shipments, shipmentToUpdate.id)).Some? ==>
                FindById(shipmentApiService.shipmentService.shipments, shipmentToUpdate.id) == Some(shipment)
      ensures shipmentApiService.shipmentService.shipmentItems == old(shipmentApiService.shipmentService.shipmentItems)
      ensures shipmentApiService.shipmentService.nextId == old(shipmentApiService.shipmentService.nextId)
    {
      shipment := shipmentToUpdate;
      var createdOnUtc := shipment.createdOnUtc;
      shipment := Merge(shipmentDelta, shipment);
      shipment := shipment.(createdOnUtc := createdOnUtc);
      shipmentApiService.UpdateShipment(shipment);
    }

    /**
     * `DELETE .../shipments/{shipmentId}`: the order must exist; the looked-up
     * shipment is deleted without a null check and without checking its order.
     */
    method DeleteShipmentById(orderId: int, shipmentId: int) returns (r: Response)
      requires shipmentApiService.shipmentService.Valid()
      modifies shipmentApiService.shipmentService
      ensures shipmentApiService.shipmentService.Valid()
      ensures OrderApi.GetOrderById(orderTable, orderId).None? ==> r == NotFound("order")
      ensures OrderApi.GetOrderById(orderTable, orderId).Some? ==>
                match old(shipmentApiService.GetShipmentById(shipmentId))
                case None => r == Unhandled
                case Some(shipment) =>
                  r == EmptyJson
                  && shipmentApiService.shipmentService.shipments
                     == RemoveById(old(shipmentApiService.shipmentService.shipments), shipment.id)
      ensures !r.EmptyJson? ==> unchanged(shipmentApiService.shipmentService)
      ensures shipmentApiService.shipmentService.shipmentItems == old(shipmentApiService.shipmentService.shipmentItems)
      ensures shipmentApiService.shipmentService.nextId == old(shipmentApiService.shipmentService.nextId)
    {
      var order := OrderApi.GetOrderById(orderTable, orderId);
      if order.None? {
        return NotFound("order");
      }
      var shipment := shipmentApiService.GetShipmentById(shipmentId);
      var faulted := shipmentApiService.DeleteShipment(shipment);
      if faulted {
        return Unhandled;
      }
      r := EmptyJson;
    }
  }

  /**
   * A list request without query parameters binds a default model, which
   * passes both parameter checks when the default limit is in range.
   */
  method GetOrderShipmentsWithDefaults(controller: ShipmentsController, orderId: int) returns (r: Response)
    requires Configurations.MinLimit <= Configurations.DefaultLimit <= Configurations.MaxLimit
    ensures !r.BadRequest?
    ensures OrderApi.GetOrderById(controller.orderTable, orderId).None? <==> r == NotFound("order")
  {
    var parameters := new ShipmentsParametersModel();
    r := controller.GetOrderShipments(orderId, parameters);
  }
}
