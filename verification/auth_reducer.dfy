/**
  `ngrx/reducers/auth.reducer.ts`: the `auth` tag's 3 operations, each with
  a request, a success and a failure transition, as an instance of the
  generic reducer.
 */
module AuthReducer {
  import opened Wrappers
  import opened Reducer
  import Casing

  /** The operations of the tag, in the order of the `AuthState` data fields. */
  datatype Op = Login | Register | RefreshToken

  const Ops: seq<Op> := [Login, Register, RefreshToken]

  /** The `operationId` of each operation, in the same order. */
  const OperationIds: seq<string> := ["login", "register", "refreshToken"]

  /** The data fields of `AuthState`, in declaration order. */
  const SlotNames: seq<string> := ["loginData", "registerData", "refreshTokenData"]

  /** The position of an operation's data slot. */
  function Slot(op: Op): (i: nat)
    ensures i < |Ops| && Ops[i] == op
  {
    match op
    case Login => 0
    case Register => 1
    case RefreshToken => 2
  }

  /** A value of `AuthState`: one data slot per operation. */
  predicate IsAuthState<D, E>(s: State<D, E>) {
    |s.slots| == |Ops|
  }

  /** `initialAuthState`. */
  function InitialAuthState<D, E>(): State<D, E>
  {
    Initial(|Ops|)
  }

  /** `initialAuthState`: not loading, `error` null and every data slot null. */
  lemma InitialAuthStateIsEmpty<D, E>(s: State<D, E>)
    requires s == InitialAuthState()
    ensures IsAuthState(s)
    ensures !s.loading && s.error.None?
    ensures forall op :: s.slots[Slot(op)].None?
  {
    InitialIsEmpty(s, |Ops|);
  }

  /** Every request action sets `loading`, clears `error` and leaves every data slot alone. */
  lemma RequestKeepsSlots<D, E>(s: State<D, E>, op: Op)
    requires IsAuthState(s)
    ensures var r := Step(s, Request(Slot(op)));
      && r.loading && r.error.None?
      && forall o :: r.slots[Slot(o)] == s.slots[Slot(o)]
  {
  }

  /** Every success clears `loading` and writes its own slot only; `error` is kept. */
  lemma SuccessWritesOwnSlot<D, E>(s: State<D, E>, op: Op, d: D)
    requires IsAuthState(s)
    ensures var r := Step(s, Succeeded(Slot(op), d));
      && !r.loading && r.error == s.error
      && r.slots[Slot(op)] == Some(d)
      && forall o :: o != op ==> r.slots[Slot(o)] == s.slots[Slot(o)]
  {
  }

  /** Every failure clears `loading` and stores the payload as `error`; no data slot changes. */
  lemma FailureStoresError<D, E>(s: State<D, E>, op: Op, e: E)
    requires IsAuthState(s)
    ensures var r := Step(s, Failed(Slot(op), e));
      && !r.loading && r.error == Some(e)
      && forall o :: r.slots[Slot(o)] == s.slots[Slot(o)]
  {
  }

  /** A request answered by its success: not loading, no error, the data in the operation's slot. */
  lemma CompletedRequest<D, E>(s: State<D, E>, op: Op, d: D)
    requires IsAuthState(s)
    ensures var r := Step(Step(s, Request(Slot(op))), Succeeded(Slot(op), d));
      && !r.loading && r.error.None?
      && r.slots[Slot(op)] == Some(d)
      && forall o :: o != op ==> r.slots[Slot(o)] == s.slots[Slot(o)]
  {
    RequestThenSuccess(s, Slot(op), d);
  }

  /** The data fields are named by the template: the camel-cased `operationId` followed by `Data`. */
  lemma SlotNamesFollowTemplate()
    ensures |SlotNames| == |OperationIds| == |Ops|
    ensures forall op :: SlotNames[Slot(op)] == Casing.CamelCase(OperationIds[Slot(op)]) + "Data"
  {
    forall op ensures SlotNames[Slot(op)] == Casing.CamelCase(OperationIds[Slot(op)]) + "Data" {
      var i := Slot(op);
      assert forall k :: 0 <= k < |OperationIds[i]| ==> OperationIds[i][k] != '_';
      assert SlotNames[i] == OperationIds[i] + "Data";
      Casing.CamelCaseOfIdentifier(OperationIds[i]);
    }
  }

  /** `loginSuccess` writes `loginData` only; `registerData`, `refreshTokenData` and `error` are kept. */
  lemma LoginSuccess<D, E>(s: State<D, E>, d: D)
    requires IsAuthState(s)
    ensures SlotNames[Slot(Login)] == "loginData"
    ensures var r := Step(s, Succeeded(Slot(Login), d));
      && !r.loading && r.error == s.error
      && r.slots[Slot(Login)] == Some(d)
      && r.slots[Slot(Register)] == s.slots[Slot(Register)]
      && r.slots[Slot(RefreshToken)] == s.slots[Slot(RefreshToken)]
  {
    SuccessWritesOwnSlot(s, Login, d);
  }

  /** `refreshTokenFailure` clears `loading`, stores the error and leaves all three slots alone. */
  lemma RefreshTokenFailure<D, E>(s: State<D, E>, e: E)
    requires IsAuthState(s)
    ensures var r := Step(s, Failed(Slot(RefreshToken), e));
      && !r.loading && r.error == Some(e)
      && r.slots == s.slots
  {
  }
}
