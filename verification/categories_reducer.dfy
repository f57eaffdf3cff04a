/**
  `ngrx/reducers/categories.reducer.ts`: the `categories` tag's 4 operations, each with
  a request, a success and a failure transition, as an instance of the
  generic reducer.
 */
module CategoriesReducer {
  import opened Wrappers
  import opened Reducer
  import Casing

  /** The operations of the tag, in the order of the `CategoriesState` data fields. */
  datatype Op = GetCategories | CreateCategory | GetCategoryById | UpdateCategory

  const Ops: seq<Op> := [GetCategories, CreateCategory, GetCategoryById, UpdateCategory]

  /** The `operationId` of each operation, in the same order. */
  const OperationIds: seq<string> := ["getCategories", "createCategory", "getCategoryById", "updateCategory"]

  /** The data fields of `CategoriesState`, in declaration order. */
  const SlotNames: seq<string> := ["getCategoriesData", "createCategoryData", "getCategoryByIdData", "updateCategoryData"]

  /** The position of an operation's data slot. */
  function Slot(op: Op): (i: nat)
    ensures i < |Ops| && Ops[i] == op
  {
    match op
    case GetCategories => 0
    case CreateCategory => 1
    case GetCategoryById => 2
    case UpdateCategory => 3
  }

  /** A value of `CategoriesState`: one data slot per operation. */
  predicate IsCategoriesState<D, E>(s: State<D, E>) {
    |s.slots| == |Ops|
  }

  /** `initialCategoriesState`. */
  function InitialCategoriesState<D, E>(): State<D, E>
  {
    Initial(|Ops|)
  }

  /** `initialCategoriesState`: not loading, `error` null and every data slot null. */
  lemma InitialCategoriesStateIsEmpty<D, E>(s: State<D, E>)
    requires s == InitialCategoriesState()
    ensures IsCategoriesState(s)
    ensures !s.loading && s.error.None?
    ensures forall op :: s.slots[Slot(op)].None?
  {
    InitialIsEmpty(s, |Ops|);
  }

  /** Every request action sets `loading`, clears `error` and leaves every data slot alone. */
  lemma RequestKeepsSlots<D, E>(s: State<D, E>, op: Op)
    requires IsCategoriesState(s)
    ensures var r := Step(s, Request(Slot(op)));
      && r.loading && r.error.None?
      && forall o :: r.slots[Slot(o)] == s.slots[Slot(o)]
  {
  }

  /** Every success clears `loading` and writes its own slot only; `error` is kept. */
  lemma SuccessWritesOwnSlot<D, E>(s: State<D, E>, op: Op, d: D)
    requires IsCategoriesState(s)
    ensures var r := Step(s, Succeeded(Slot(op), d));
      && !r.loading && r.error == s.error
      && r.slots[Slot(op)] == Some(d)
      && forall o :: o != op ==> r.slots[Slot(o)] == s.slots[Slot(o)]
  {
  }

  /** Every failure clears `loading` and stores the payload as `error`; no data slot changes. */
  lemma FailureStoresError<D, E>(s: State<D, E>, op: Op, e: E)
    requires IsCategoriesState(s)
    ensures var r := Step(s, Failed(Slot(op), e));
      && !r.loading && r.error == Some(e)
      && forall o :: r.slots[Slot(o)] == s.slots[Slot(o)]
  {
  }

  /** A request answered by its success: not loading, no error, the data in the operation's slot. */
  lemma CompletedRequest<D, E>(s: State<D, E>, op: Op, d: D)
    requires IsCategoriesState(s)
    ensures var r := Step(Step(s, Request(Slot(op))), Succeeded(Slot(op), d));
      && !r.loading && r.error.None?
      && r.slots[Slot(op)] == Some(d)
      && forall o :: o != op ==> r.slots[Slot(o)] == s.slots[Slot(o)]
  {
    RequestThenSuccess(s, Slot(op), d);
  }

  /** The data fields are named by the template: the camel-cased `operationId` followed by `Data`. */
  lemma SlotNamesFollowTemplate()
    ensures |SlotNames| == |OperationIds| == |Ops|
    ensures forall op :: SlotNames[Slot(op)] == Casing.CamelCase(OperationIds[Slot(op)]) + "Data"
  {
    forall op ensures SlotNames[Slot(op)] == Casing.CamelCase(OperationIds[Slot(op)]) + "Data" {
      var i := Slot(op);
      assert forall k :: 0 <= k < |OperationIds[i]| ==> OperationIds[i][k] != '_';
      assert SlotNames[i] == OperationIds[i] + "Data";
      Casing.CamelCaseOfIdentifier(OperationIds[i]);
    }
  }

  /** `updateCategorySuccess` writes `updateCategoryData` only and clears `loading`. */
  lemma UpdateCategorySuccess<D, E>(s: State<D, E>, d: D)
    requires IsCategoriesState(s)
    ensures SlotNames[Slot(UpdateCategory)] == "updateCategoryData"
    ensures var r := Step(s, Succeeded(Slot(UpdateCategory), d));
      && !r.loading && r.error == s.error
      && r.slots[Slot(UpdateCategory)] == Some(d)
      && forall o :: o != UpdateCategory ==> r.slots[Slot(o)] == s.slots[Slot(o)]
  {
    SuccessWritesOwnSlot(s, UpdateCategory, d);
  }
}
