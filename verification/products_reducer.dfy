/**
  `ngrx/reducers/products.reducer.ts`: the `products` tag's 6 operations, each with
  a request, a success and a failure transition, as an instance of the
  generic reducer.
 */
module ProductsReducer {
  import opened Wrappers
  import opened Reducer
  import Casing

  /** The operations of the tag, in the order of the `ProductsState` data fields. */
  datatype Op = GetProducts | CreateProduct | GetProductById | UpdateProduct | DeleteProduct | GetProductReviews

  const Ops: seq<Op> := [GetProducts, CreateProduct, GetProductById, UpdateProduct, DeleteProduct, GetProductReviews]

  /** The `operationId` of each operation, in the same order. */
  const OperationIds: seq<string> := ["getProducts", "createProduct", "getProductById", "updateProduct", "deleteProduct", "getProductReviews"]

  /** The data fields of `ProductsState`, in declaration order. */
  const SlotNames: seq<string> := ["getProductsData", "createProductData", "getProductByIdData", "updateProductData", "deleteProductData", "getProductReviewsData"]

  /** The position of an operation's data slot. */
  function Slot(op: Op): (i: nat)
    ensures i < |Ops| && Ops[i] == op
  {
    match op
    case GetProducts => 0
    case CreateProduct => 1
    case GetProductById => 2
    case UpdateProduct => 3
    case DeleteProduct => 4
    case GetProductReviews => 5
  }

  /** A value of `ProductsState`: one data slot per operation. */
  predicate IsProductsState<D, E>(s: State<D, E>) {
    |s.slots| == |Ops|
  }

  /** `initialProductsState`. */
  function InitialProductsState<D, E>(): State<D, E>
  {
    Initial(|Ops|)
  }

  /** `initialProductsState`: not loading, `error` null and every data slot null. */
  lemma InitialProductsStateIsEmpty<D, E>(s: State<D, E>)
    requires s == InitialProductsState()
    ensures IsProductsState(s)
    ensures !s.loading && s.error.None?
    ensures forall op :: s.slots[Slot(op)].None?
  {
    InitialIsEmpty(s, |Ops|);
  }

  /** Every request action sets `loading`, clears `error` and leaves every data slot alone. */
  lemma RequestKeepsSlots<D, E>(s: State<D, E>, op: Op)
    requires IsProductsState(s)
    ensures var r := Step(s, Request(Slot(op)));
      && r.loading && r.error.None?
      && forall o :: r.slots[Slot(o)] == s.slots[Slot(o)]
  {
  }

  /** Every success clears `loading` and writes its own slot only; `error` is kept. */
  lemma SuccessWritesOwnSlot<D, E>(s: State<D, E>, op: Op, d: D)
    requires IsProductsState(s)
    ensures var r := Step(s, Succeeded(Slot(op), d));
      && !r.loading && r.error == s.error
      && r.slots[Slot(op)] == Some(d)
      && forall o :: o != op ==> r.slots[Slot(o)] == s.slots[Slot(o)]
  {
  }

  /** Every failure clears `loading` and stores the payload as `error`; no data slot changes. */
  lemma FailureStoresError<D, E>(s: State<D, E>, op: Op, e: E)
    requires IsProductsState(s)
    ensures var r := Step(s, Failed(Slot(op), e));
      && !r.loading && r.error == Some(e)
      && forall o :: r.slots[Slot(o)] == s.slots[Slot(o)]
  {
  }

  /** A request answered by its success: not loading, no error, the data in the operation's slot. */
  lemma CompletedRequest<D, E>(s: State<D, E>, op: Op, d: D)
    requires IsProductsState(s)
    ensures var r := Step(Step(s, Request(Slot(op))), Succeeded(Slot(op), d));
      && !r.loading && r.error.None?
      && r.slots[Slot(op)] == Some(d)
      && forall o :: o != op ==> r.slots[Slot(o)] == s.slots[Slot(o)]
  {
    RequestThenSuccess(s, Slot(op), d);
  }

  /** The data fields are named by the template: the camel-cased `operationId` followed by `Data`. */
  lemma SlotNamesFollowTemplate()
    ensures |SlotNames| == |OperationIds| == |Ops|
    ensures forall op :: SlotNames[Slot(op)] == Casing.CamelCase(OperationIds[Slot(op)]) + "Data"
  {
    forall op ensures SlotNames[Slot(op)] == Casing.CamelCase(OperationIds[Slot(op)]) + "Data" {
      var i := Slot(op);
      assert forall k :: 0 <= k < |OperationIds[i]| ==> OperationIds[i][k] != '_';
      assert SlotNames[i] == OperationIds[i] + "Data";
      Casing.CamelCaseOfIdentifier(OperationIds[i]);
    }
  }

  /** Only a request action of this tag turns a prior error back into `null`. */
  lemma OnlyRequestsClearError<D, E>(s: State<D, E>, a: Action<D, E>)
    requires IsProductsState(s) && s.error.Some? && Step(s, a).error.None?
    ensures exists op :: a == Request(Slot(op))
  {
    OnlyRequestClearsError(s, a);
    var op := Ops[a.op];
    assert Slot(op) == a.op;
  }
}
