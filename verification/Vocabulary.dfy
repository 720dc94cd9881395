/** The step vocabulary the coordinator and the four services agree on, and the
    idempotency key derived from it (packages/shared/src/types.ts). */
module Vocabulary {

  type OrderId = string

  datatype Step =
    | CreateOrder | ReserveInventory | ChargePayment | CreateShipment
    | CancelOrder | ReleaseInventory | RefundPayment | CancelShipment

  datatype OrderStatus = Pending | InProgress | Placed | Compensating | Cancelled | NeedsAttention | Shipped

  datatype Option<+T> = None | Some(value: T)

  const FORWARD_STEPS: seq<Step> := [CreateOrder, ReserveInventory, ChargePayment, CreateShipment]
  const COMPENSATION_STEPS: seq<Step> := [CancelOrder, ReleaseInventory, RefundPayment, CancelShipment]

  predicate IsForward(step: Step) {
    step.CreateOrder? || step.ReserveInventory? || step.ChargePayment? || step.CreateShipment?
  }

  lemma StepsPartition(step: Step)
    ensures IsForward(step) <==> step in FORWARD_STEPS
    ensures IsForward(step) <==> step !in COMPENSATION_STEPS
  {
    assert FORWARD_STEPS[0] == CreateOrder && FORWARD_STEPS[1] == ReserveInventory;
    assert FORWARD_STEPS[2] == ChargePayment && FORWARD_STEPS[3] == CreateShipment;
    assert COMPENSATION_STEPS[0] == CancelOrder && COMPENSATION_STEPS[1] == ReleaseInventory;
    assert COMPENSATION_STEPS[2] == RefundPayment && COMPENSATION_STEPS[3] == CancelShipment;
  }

  function CompensationOf(step: Step): (undo: Step)
    requires IsForward(step)
    ensures !IsForward(undo)
  {
    match step
    case CreateOrder => CancelOrder
    case ReserveInventory => ReleaseInventory
    case ChargePayment => RefundPayment
    case CreateShipment => CancelShipment
  }

  /** The forward step a compensation undoes. */
  function ForwardOf(undo: Step): (step: Step)
    requires !IsForward(undo)
    ensures IsForward(step) && CompensationOf(step) == undo
    ensures forall f: Step | IsForward(f) && CompensationOf(f) == undo :: f == step
  {
    match undo
    case CancelOrder => CreateOrder
    case ReleaseInventory => ReserveInventory
    case RefundPayment => ChargePayment
    case CancelShipment => CreateShipment
  }

  datatype ServiceName = OrderService | InventoryService | PaymentService | ShippingService

  /** Which service owns an operation. */
  function StepService(step: Step): ServiceName {
    match step
    case CreateOrder => OrderService
    case CancelOrder => OrderService
    case ReserveInventory => InventoryService
    case ReleaseInventory => InventoryService
    case ChargePayment => PaymentService
    case RefundPayment => PaymentService
    case CreateShipment => ShippingService
    case CancelShipment => ShippingService
  }

  /** Every step is undone by the service that did it, and by no other step of that service; the
      two lists name the steps and their undos in the same order. */
  lemma UndoneWhereDone(step: Step, undo: Step)
    requires IsForward(step) && !IsForward(undo)
    ensures CompensationOf(step) == undo <==> StepService(step) == StepService(undo)
    ensures ForwardOf(undo) == step <==> StepService(step) == StepService(undo)
    ensures forall i :: 0 <= i < 4 ==> StepService(FORWARD_STEPS[i]) == StepService(COMPENSATION_STEPS[i])
  {
    assert FORWARD_STEPS[0] == CreateOrder && FORWARD_STEPS[1] == ReserveInventory;
    assert FORWARD_STEPS[2] == ChargePayment && FORWARD_STEPS[3] == CreateShipment;
  }

  /** Where a compensation stands in COMPENSATION_STEPS. */
  function UndoIndex(undo: Step): (i: nat)
    requires !IsForward(undo)
    ensures i < |COMPENSATION_STEPS| && COMPENSATION_STEPS[i] == undo
    ensures forall j :: 0 <= j < |COMPENSATION_STEPS| && COMPENSATION_STEPS[j] == undo ==> j == i
  {
    match undo
    case CancelOrder => 0
    case ReleaseInventory => 1
    case RefundPayment => 2
    case CancelShipment => 3
  }

  function StepName(step: Step): (name: string)
    ensures ':' !in name
  {
    match step
    case CreateOrder => "CREATE_ORDER"
    case ReserveInventory => "RESERVE_INVENTORY"
    case ChargePayment => "CHARGE_PAYMENT"
    case CreateShipment => "CREATE_SHIPMENT"
    case CancelOrder => "CANCEL_ORDER"
    case ReleaseInventory => "RELEASE_INVENTORY"
    case RefundPayment => "REFUND_PAYMENT"
    case CancelShipment => "CANCEL_SHIPMENT"
  }

  const FORWARD_NAMES: seq<string> := ["CREATE_ORDER", "RESERVE_INVENTORY", "CHARGE_PAYMENT", "CREATE_SHIPMENT"]
  const COMPENSATION_NAMES: seq<string> := ["CANCEL_ORDER", "RELEASE_INVENTORY", "REFUND_PAYMENT", "CANCEL_SHIPMENT"]

  function IdempotencyKey(orderId: OrderId, step: Step): string {
    orderId + ":" + StepName(step)
  }

  /** Two requests share a key only when they are for the same order and the same
      step, even for order ids that themselves contain a colon. */
  lemma KeyInjective(o1: OrderId, s1: Step, o2: OrderId, s2: Step)
    requires IdempotencyKey(o1, s1) == IdempotencyKey(o2, s2)
    ensures o1 == o2 && s1 == s2
  {
    var k1, k2 := IdempotencyKey(o1, s1), IdempotencyKey(o2, s2);
    var n1, n2 := StepName(s1), StepName(s2);
    ColonAt(o1, n1);
    ColonAt(o2, n2);
    assert o1 == k1[..|o1|] && o2 == k2[..|o2|];
    assert n1 == k1[|o1| + 1..] && n2 == k2[|o2| + 1..];
    NamesDistinct(s1, s2);
  }

  /** The key is the order id, a colon and the step's name in the vocabulary. */
  lemma KeyText(orderId: OrderId, i: nat)
    requires i < 4
    ensures IdempotencyKey(orderId, FORWARD_STEPS[i]) == orderId + (":" + FORWARD_NAMES[i])
    ensures IdempotencyKey(orderId, COMPENSATION_STEPS[i]) == orderId + (":" + COMPENSATION_NAMES[i])
  {
  }

  lemma ColonAt(orderId: OrderId, name: string)
    ensures |orderId + ":" + name| == |orderId| + 1 + |name|
    ensures (orderId + ":" + name)[|orderId|] == ':'
    ensures forall i :: 0 <= i < |name| ==> (orderId + ":" + name)[|orderId| + 1 + i] == name[i]
  {
  }

  lemma NamesDistinct(s1: Step, s2: Step)
    requires StepName(s1) == StepName(s2)
    ensures s1 == s2
  {
    var n1, n2 := StepName(s1), StepName(s2);
    assert |n1| == |n2| && n1[0] == n2[0] && n1[1] == n2[1] && n1[2] == n2[2];
  }
}
