/**
 * The shipment transport object `ShipmentDto`, its wire names, and the
 * partial-update payload `Delta<ShipmentDto>` with its presence-guarded merge
 * onto a stored `Shipment`.
 */
module ShipmentDtos {
  import opened Wrappers
  import opened Shipping

  // ----- Wire names -----

  const TrackingNumberName := "tracking_number"
  const AdminCommentName := "admin_comment"
  const WeightName := "weight"
  const CreatedOnUtcName := "created_on_utc"
  const ShippedDateUtcName := "shipped_date_utc"
  const DeliveryDateUtcName := "delivery_date_utc"
  const ReadyForPickupDateUtcName := "ready_for_pickup_date_utc"
  const ShipmentItemsName := "shipment_items"

  /** The declared wire names of `ShipmentDto`, in declaration order. */
  function ShipmentWireNames(): (names: seq<string>)
    ensures |names| == 8
    ensures forall i, j :: 0 <= i < j < |names| ==> names[i] != names[j]
  {
    [TrackingNumberName, AdminCommentName, WeightName, CreatedOnUtcName,
     ShippedDateUtcName, DeliveryDateUtcName, ReadyForPickupDateUtcName, ShipmentItemsName]
  }

  /** The scalar properties of `ShipmentDto` a merge can copy onto a `Shipment`. */
  datatype ScalarField = TrackingNumber | AdminComment | Weight | CreatedOnUtc
                       | ShippedDateUtc | DeliveryDateUtc | ReadyForPickupDateUtc

  /** The wire name a scalar property is read from. */
  function WireName(f: ScalarField): string {
    match f
    case TrackingNumber => TrackingNumberName
    case AdminComment => AdminCommentName
    case Weight => WeightName
    case CreatedOnUtc => CreatedOnUtcName
    case ShippedDateUtc => ShippedDateUtcName
    case DeliveryDateUtc => DeliveryDateUtcName
    case ReadyForPickupDateUtc => ReadyForPickupDateUtcName
  }

  /** Distinct properties have distinct wire names, so a present name selects one property. */
  lemma WireNameInjective(f: ScalarField, g: ScalarField)
    requires WireName(f) == WireName(g)
    ensures f == g
  {
  }

  // ----- The DTO -----

  /** `ShipmentItemDto` without its unmapped `order_item` navigation. */
  datatype ShipmentItemDto = ShipmentItemDto(quantity: int, orderItemId: int, warehouseId: int)

  /** An `ICollection<ShipmentItemDto>`: a list object that can be shared by reference. */
  class ItemCollection {
    var elems: seq<ShipmentItemDto>

    constructor (elems: seq<ShipmentItemDto>)
      ensures this.elems == elems
    {
      this.elems := elems;
    }
  }

  class ShipmentDto {
    var trackingNumber: string
    var adminComment: string
    var totalWeight: int
    var createdOnUtc: int
    var shippedDateUtc: Option<int>
    var deliveryDateUtc: Option<int>
    var readyForPickupDateUtc: Option<int>
    /** The backing field `_shipmentItems`: `null` until first read or written. */
    var shipmentItemsField: ItemCollection?

    constructor ()
      ensures trackingNumber == "" && adminComment == "" && totalWeight == 0 && createdOnUtc == 0
      ensures shippedDateUtc == None && deliveryDateUtc == None && readyForPickupDateUtc == None
      ensures shipmentItemsField == null
    {
      trackingNumber, adminComment, totalWeight, createdOnUtc := "", "", 0, 0;
      shippedDateUtc, deliveryDateUtc, readyForPickupDateUtc := None, None, None;
      shipmentItemsField := null;
    }

    /** What reading `ShipmentItems` yields, as a value: an unset collection reads as empty. */
    function ShipmentItemsValue(): seq<ShipmentItemDto>
      reads this, shipmentItemsField
    {
      if shipmentItemsField == null then [] else shipmentItemsField.elems
    }

    /**
     * The `ShipmentItems` getter `_shipmentItems ??= new List()`: never null;
     * the collection it creates is stored, so later reads return the same one.
     */
    method ShipmentItems() returns (items: ItemCollection)
      modifies this`shipmentItemsField
      ensures shipmentItemsField == items
      ensures old(shipmentItemsField) != null ==> items == old(shipmentItemsField)
      ensures old(shipmentItemsField) == null ==> fresh(items) && items.elems == []
      ensures items.elems == old(ShipmentItemsValue())
    {
      if shipmentItemsField == null {
        shipmentItemsField := new ItemCollection([]);
      }
      items := shipmentItemsField;
    }

    /** The `ShipmentItems` setter: the collection is replaced wholesale, `null` included. */
    method SetShipmentItems(value: ItemCollection?)
      modifies this`shipmentItemsField
      ensures shipmentItemsField == value
    {
      shipmentItemsField := value;
    }
  }

  /** Two reads with no write in between return the same collection. */
  method ReadShipmentItemsTwice(dto: ShipmentDto) returns (first: ItemCollection, second: ItemCollection)
    modifies dto`shipmentItemsField
    ensures first == second && dto.shipmentItemsField == first
  {
    first := dto.ShipmentItems();
    second := dto.ShipmentItems();
  }

  /**
   * A fresh DTO reads as an empty collection; after setting `value` the getter
   * returns `value` itself; after setting `null` it returns a new empty one.
   */
  method ShipmentItemsLifecycle(value: ItemCollection) returns (onFresh: ItemCollection, afterSet: ItemCollection, afterNull: ItemCollection)
    ensures onFresh.elems == []
    ensures afterSet == value
    ensures afterNull != value && afterNull.elems == []
  {
    var dto := new ShipmentDto();
    onFresh := dto.ShipmentItems();
    dto.SetShipmentItems(value);
    afterSet := dto.ShipmentItems();
    dto.SetShipmentItems(null);
    afterNull := dto.ShipmentItems();
  }

  // ----- Delta<ShipmentDto> and its merge -----

  /** A parsed payload: the DTO it filled and the wire names that were present in it. */
  datatype ShipmentDelta = ShipmentDelta(dto: ShipmentDto, present: set<string>)

  /** A field value, tagged by the kind of field it came from. */
  datatype FieldValue = Text(text: string) | Number(number: int) | Instant(instant: int) | MaybeInstant(maybe: Option<int>)

  /** The value of a scalar property of a shipment. */
  function ShipmentField(s: Shipment, f: ScalarField): FieldValue {
    match f
    case TrackingNumber => Text(s.trackingNumber)
    case AdminComment => Text(s.adminComment)
    case Weight => Number(s.totalWeight)
    case CreatedOnUtc => Instant(s.createdOnUtc)
    case ShippedDateUtc => MaybeInstant(s.shippedDateUtc)
    case DeliveryDateUtc => MaybeInstant(s.deliveryDateUtc)
    case ReadyForPickupDateUtc => MaybeInstant(s.readyForPickupDateUtc)
  }

  /** The value of a scalar property of a DTO. */
  function DtoField(dto: ShipmentDto, f: ScalarField): FieldValue
    reads dto
  {
    match f
    case TrackingNumber => Text(dto.trackingNumber)
    case AdminComment => Text(dto.adminComment)
    case Weight => Number(dto.totalWeight)
    case CreatedOnUtc => Instant(dto.createdOnUtc)
    case ShippedDateUtc => MaybeInstant(dto.shippedDateUtc)
    case DeliveryDateUtc => MaybeInstant(dto.deliveryDateUtc)
    case ReadyForPickupDateUtc => MaybeInstant(dto.readyForPickupDateUtc)
  }

  /**
   * `Delta<ShipmentDto>.Merge(target)`: every property whose wire name was
   * present takes the payload's value; every other property, and the id and
   * the order id, keep the target's.
   */
  function Merge(delta: ShipmentDelta, target: Shipment): (r: Shipment)
    reads delta.dto
    ensures r.id == target.id && r.orderId == target.orderId
    ensures forall f :: ShipmentField(r, f) ==
              if WireName(f) in delta.present then DtoField(delta.dto, f) else ShipmentField(target, f)
  {
    var d, p := delta.dto, delta.present;
    target.(
      trackingNumber := if TrackingNumberName in p then d.trackingNumber else target.trackingNumber,
      adminComment := if AdminCommentName in p then d.adminComment else target.adminComment,
      totalWeight := if WeightName in p then d.totalWeight else target.totalWeight,
      createdOnUtc := if CreatedOnUtcName in p then d.createdOnUtc else target.createdOnUtc,
      shippedDateUtc := if ShippedDateUtcName in p then d.shippedDateUtc else target.shippedDateUtc,
      deliveryDateUtc := if DeliveryDateUtcName in p then d.deliveryDateUtc else target.deliveryDateUtc,
      readyForPickupDateUtc := if ReadyForPickupDateUtcName in p then d.readyForPickupDateUtc else target.readyForPickupDateUtc)
  }

  /** Two shipments with the same id, order id and scalar properties are equal. */
  lemma FieldsDetermineShipment(a: Shipment, b: Shipment)
    requires a.id == b.id && a.orderId == b.orderId
    requires forall f :: ShipmentField(a, f) == ShipmentField(b, f)
    ensures a == b
  {
    assert ShipmentField(a, TrackingNumber) == ShipmentField(b, TrackingNumber);
    assert ShipmentField(a, AdminComment) == ShipmentField(b, AdminComment);
    assert ShipmentField(a, Weight) == ShipmentField(b, Weight);
    assert ShipmentField(a, CreatedOnUtc) == ShipmentField(b, CreatedOnUtc);
    assert ShipmentField(a, ShippedDateUtc) == ShipmentField(b, ShippedDateUtc);
    assert ShipmentField(a, DeliveryDateUtc) == ShipmentField(b, DeliveryDateUtc);
    assert ShipmentField(a, ReadyForPickupDateUtc) == ShipmentField(b, ReadyForPickupDateUtc);
  }

  /** Merging the same payload twice is merging it once. */
  lemma MergeIdempotent(delta: ShipmentDelta, target: Shipment)
    ensures Merge(delta, Merge(delta, target)) == Merge(delta, target)
  {
    FieldsDetermineShipment(Merge(delta, Merge(delta, target)), Merge(delta, target));
  }

  /** A payload that names none of the scalar properties leaves the target as it is. */
  lemma MergeAbsentIsIdentity(delta: ShipmentDelta, target: Shipment)
    requires forall f :: WireName(f) !in delta.present
    ensures Merge(delta, target) == target
  {
    FieldsDetermineShipment(Merge(delta, target), target);
  }
}
