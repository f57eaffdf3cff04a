/**
  `ngrx/reducers/users.reducer.ts`: the `users` tag's 6 operations, each with
  a request, a success and a failure transition, as an instance of the
  generic reducer.
 */
module UsersReducer {
  import opened Wrappers
  import opened Reducer
  import Casing

  /** The operations of the tag, in the order of the `UsersState` data fields. */
  datatype Op = GetUsers | CreateUser | GetUserById | UpdateUser | DeleteUser | GetUserProfile

  const Ops: seq<Op> := [GetUsers, CreateUser, GetUserById, UpdateUser, DeleteUser, GetUserProfile]

  /** The `operationId` of each operation, in the same order. */
  const OperationIds: seq<string> := ["getUsers", "createUser", "getUserById", "updateUser", "deleteUser", "getUserProfile"]

  /** The data fields of `UsersState`, in declaration order. */
  const SlotNames: seq<string> := ["getUsersData", "createUserData", "getUserByIdData", "updateUserData", "deleteUserData", "getUserProfileData"]

  /** The position of an operation's data slot. */
  function Slot(op: Op): (i: nat)
    ensures i < |Ops| && Ops[i] == op
  {
    match op
    case GetUsers => 0
    case CreateUser => 1
    case GetUserById => 2
    case UpdateUser => 3
    case DeleteUser => 4
    case GetUserProfile => 5
  }

  /** A value of `UsersState`: one data slot per operation. */
  predicate IsUsersState<D, E>(s: State<D, E>) {
    |s.slots| == |Ops|
  }

  /** `initialUsersState`. */
  function InitialUsersState<D, E>(): State<D, E>
  {
    Initial(|Ops|)
  }

  /** `initialUsersState`: not loading, `error` null and every data slot null. */
  lemma InitialUsersStateIsEmpty<D, E>(s: State<D, E>)
    requires s == InitialUsersState()
    ensures IsUsersState(s)
    ensures !s.loading && s.error.None?
    ensures forall op :: s.slots[Slot(op)].None?
  {
    InitialIsEmpty(s, |Ops|);
  }

  /** Every request action sets `loading`, clears `error` and leaves every data slot alone. */
  lemma RequestKeepsSlots<D, E>(s: State<D, E>, op: Op)
    requires IsUsersState(s)
    ensures var r := Step(s, Request(Slot(op)));
      && r.loading && r.error.None?
      && forall o :: r.slots[Slot(o)] == s.slots[Slot(o)]
  {
  }

  /** Every success clears `loading` and writes its own slot only; `error` is kept. */
  lemma SuccessWritesOwnSlot<D, E>(s: State<D, E>, op: Op, d: D)
    requires IsUsersState(s)
    ensures var r := Step(s, Succeeded(Slot(op), d));
      && !r.loading && r.error == s.error
      && r.slots[Slot(op)] == Some(d)
      && forall o :: o != op ==> r.slots[Slot(o)] == s.slots[Slot(o)]
  {
  }

  /** Every failure clears `loading` and stores the payload as `error`; no data slot changes. */
  lemma FailureStoresError<D, E>(s: State<D, E>, op: Op, e: E)
    requires IsUsersState(s)
    ensures var r := Step(s, Failed(Slot(op), e));
      && !r.loading && r.error == Some(e)
      && forall o :: r.slots[Slot(o)] == s.slots[Slot(o)]
  {
  }

  /** A request answered by its success: not loading, no error, the data in the operation's slot. */
  lemma CompletedRequest<D, E>(s: State<D, E>, op: Op, d: D)
    requires IsUsersState(s)
    ensures var r := Step(Step(s, Request(Slot(op))), Succeeded(Slot(op), d));
      && !r.loading && r.error.None?
      && r.slots[Slot(op)] == Some(d)
      && forall o :: o != op ==> r.slots[Slot(o)] == s.slots[Slot(o)]
  {
    RequestThenSuccess(s, Slot(op), d);
  }

  /** The data fields are named by the template: the camel-cased `operationId` followed by `Data`. */
  lemma SlotNamesFollowTemplate()
    ensures |SlotNames| == |OperationIds| == |Ops|
    ensures forall op :: SlotNames[Slot(op)] == Casing.CamelCase(OperationIds[Slot(op)]) + "Data"
  {
    forall op ensures SlotNames[Slot(op)] == Casing.CamelCase(OperationIds[Slot(op)]) + "Data" {
      var i := Slot(op);
      assert forall k :: 0 <= k < |OperationIds[i]| ==> OperationIds[i][k] != '_';
      assert SlotNames[i] == OperationIds[i] + "Data";
      Casing.CamelCaseOfIdentifier(OperationIds[i]);
    }
  }

  /** `getUserProfileSuccess` writes `getUserProfileData` only, clears `loading` and keeps `error`. */
  lemma GetUserProfileSuccess<D, E>(s: State<D, E>, d: D)
    requires IsUsersState(s)
    ensures SlotNames[Slot(GetUserProfile)] == "getUserProfileData"
    ensures var r := Step(s, Succeeded(Slot(GetUserProfile), d));
      && !r.loading && r.error == s.error
      && r.slots[Slot(GetUserProfile)] == Some(d)
      && forall o :: o != GetUserProfile ==> r.slots[Slot(o)] == s.slots[Slot(o)]
  {
    SuccessWritesOwnSlot(s, GetUserProfile, d);
  }

  /** Whatever operation settles, by success or by failure, `loading` ends false. */
  lemma SettledIsIdle<D, E>(s: State<D, E>, op: Op, d: D, e: E)
    requires IsUsersState(s)
    ensures !Step(s, Succeeded(Slot(op), d)).loading
    ensures !Step(s, Failed(Slot(op), e)).loading
  {
  }
}
