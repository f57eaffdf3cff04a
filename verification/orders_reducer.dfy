/**
  `ngrx/reducers/orders.reducer.ts`: the `orders` tag's 5 operations, each with
  a request, a success and a failure transition, as an instance of the
  generic reducer.
 */
module OrdersReducer {
  import opened Wrappers
  import opened Reducer
  import Casing

  /** The operations of the tag, in the order of the `OrdersState` data fields. */
  datatype Op = GetOrders | CreateOrder | GetOrderById | UpdateOrderStatus | CancelOrder

  const Ops: seq<Op> := [GetOrders, CreateOrder, GetOrderById, UpdateOrderStatus, CancelOrder]

  /** The `operationId` of each operation, in the same order. */
  const OperationIds: seq<string> := ["getOrders", "createOrder", "getOrderById", "updateOrderStatus", "cancelOrder"]

  /** The data fields of `OrdersState`, in declaration order. */
  const SlotNames: seq<string> := ["getOrdersData", "createOrderData", "getOrderByIdData", "updateOrderStatusData", "cancelOrderData"]

  /** The position of an operation's data slot. */
  function Slot(op: Op): (i: nat)
    ensures i < |Ops| && Ops[i] == op
  {
    match op
    case GetOrders => 0
    case CreateOrder => 1
    case GetOrderById => 2
    case UpdateOrderStatus => 3
    case CancelOrder => 4
  }

  /** A value of `OrdersState`: one data slot per operation. */
  predicate IsOrdersState<D, E>(s: State<D, E>) {
    |s.slots| == |Ops|
  }

  /** `initialOrdersState`. */
  function InitialOrdersState<D, E>(): State<D, E>
  {
    Initial(|Ops|)
  }

  /** `initialOrdersState`: not loading, `error` null and every data slot null. */
  lemma InitialOrdersStateIsEmpty<D, E>(s: State<D, E>)
    requires s == InitialOrdersState()
    ensures IsOrdersState(s)
    ensures !s.loading && s.error.None?
    ensures forall op :: s.slots[Slot(op)].None?
  {
    InitialIsEmpty(s, |Ops|);
  }

  /** Every request action sets `loading`, clears `error` and leaves every data slot alone. */
  lemma RequestKeepsSlots<D, E>(s: State<D, E>, op: Op)
    requires IsOrdersState(s)
    ensures var r := Step(s, Request(Slot(op)));
      && r.loading && r.error.None?
      && forall o :: r.slots[Slot(o)] == s.slots[Slot(o)]
  {
  }

  /** Every success clears `loading` and writes its own slot only; `error` is kept. */
  lemma SuccessWritesOwnSlot<D, E>(s: State<D, E>, op: Op, d: D)
    requires IsOrdersState(s)
    ensures var r := Step(s, Succeeded(Slot(op), d));
      && !r.loading && r.error == s.error
      && r.slots[Slot(op)] == Some(d)
      && forall o :: o != op ==> r.slots[Slot(o)] == s.slots[Slot(o)]
  {
  }

  /** Every failure clears `loading` and stores the payload as `error`; no data slot changes. */
  lemma FailureStoresError<D, E>(s: State<D, E>, op: Op, e: E)
    requires IsOrdersState(s)
    ensures var r := Step(s, Failed(Slot(op), e));
      && !r.loading && r.error == Some(e)
      && forall o :: r.slots[Slot(o)] == s.slots[Slot(o)]
  {
  }

  /** A request answered by its success: not loading, no error, the data in the operation's slot. */
  lemma CompletedRequest<D, E>(s: State<D, E>, op: Op, d: D)
    requires IsOrdersState(s)
    ensures var r := Step(Step(s, Request(Slot(op))), Succeeded(Slot(op), d));
      && !r.loading && r.error.None?
      && r.slots[Slot(op)] == Some(d)
      && forall o :: o != op ==> r.slots[Slot(o)] == s.slots[Slot(o)]
  {
    RequestThenSuccess(s, Slot(op), d);
  }

  /** The data fields are named by the template: the camel-cased `operationId` followed by `Data`. */
  lemma SlotNamesFollowTemplate()
    ensures |SlotNames| == |OperationIds| == |Ops|
    ensures forall op :: SlotNames[Slot(op)] == Casing.CamelCase(OperationIds[Slot(op)]) + "Data"
  {
    forall op ensures SlotNames[Slot(op)] == Casing.CamelCase(OperationIds[Slot(op)]) + "Data" {
      var i := Slot(op);
      assert forall k :: 0 <= k < |OperationIds[i]| ==> OperationIds[i][k] != '_';
      assert SlotNames[i] == OperationIds[i] + "Data";
      Casing.CamelCaseOfIdentifier(OperationIds[i]);
    }
  }

  /** `cancelOrderSuccess` writes `cancelOrderData` only; the other four slots and `error` are kept. */
  lemma CancelOrderSuccess<D, E>(s: State<D, E>, d: D)
    requires IsOrdersState(s)
    ensures SlotNames[Slot(CancelOrder)] == "cancelOrderData"
    ensures var r := Step(s, Succeeded(Slot(CancelOrder), d));
      && !r.loading && r.error == s.error
      && r.slots[Slot(CancelOrder)] == Some(d)
      && forall o :: o != CancelOrder ==> r.slots[Slot(o)] == s.slots[Slot(o)]
  {
    SuccessWritesOwnSlot(s, CancelOrder, d);
  }

  /** A failure's error survives a later success of any operation. */
  lemma FailureSurvivesSuccess<D, E>(s: State<D, E>, failed: Op, e: E, succeeded: Op, d: D)
    requires IsOrdersState(s)
    ensures Step(Step(s, Failed(Slot(failed), e)), Succeeded(Slot(succeeded), d)).error == Some(e)
  {
  }
}
