/**
  The reducer every generated `*.reducer.ts` instantiates (the template at
  `_generate_reducer_content`): a record with `loading`, `error` and one data
  slot per operation, and three transitions per operation.

  The data and error payloads are opaque type parameters. The slot of an
  operation is its position in the tag's operation list; an action whose
  index names no slot is one the reducer has no `on(...)` case for, and
  `createReducer` returns the state unchanged.
 */
module Reducer {
  import opened Wrappers

  /** `{ loading, error, <op>Data... }`; `None` stands for `null`. */
  datatype State<D, E> = State(loading: bool, error: Option<E>, slots: seq<Option<D>>)

  /** `<op>`, `<op>Success({ data })` and `<op>Failure({ error })` for the operation at index `op`. */
  datatype Action<D, E> =
    | Request(op: nat)
    | Succeeded(op: nat, data: D)
    | Failed(op: nat, error: E)

  /** `initial<Tag>State` of a tag with `n` operations. */
  function Initial<D, E>(n: nat): State<D, E>
  {
    State(false, None, seq(n, _ => None))
  }

  /** The initial state is not loading, has no error, and every one of its `n` slots is `null`. */
  lemma InitialIsEmpty<D, E>(s: State<D, E>, n: nat)
    requires s == Initial(n)
    ensures !s.loading && s.error.None?
    ensures |s.slots| == n
    ensures forall i :: 0 <= i < n ==> s.slots[i].None?
  {
  }

  /** The action is one of the `on(...)` cases of a reducer with this many slots. */
  predicate Handled<D, E>(a: Action<D, E>, n: nat) {
    a.op < n
  }

  /** One dispatch through `createReducer`. */
  function Step<D, E>(s: State<D, E>, a: Action<D, E>): (r: State<D, E>)
    ensures |r.slots| == |s.slots|
    ensures !Handled(a, |s.slots|) ==> r == s
    ensures Handled(a, |s.slots|) && a.Request? ==> r.loading && r.error.None? && r.slots == s.slots
    ensures Handled(a, |s.slots|) && a.Succeeded? ==>
      && !r.loading && r.error == s.error
      && r.slots[a.op] == Some(a.data)
      && forall j :: 0 <= j < |s.slots| && j != a.op ==> r.slots[j] == s.slots[j]
    ensures Handled(a, |s.slots|) && a.Failed? ==> !r.loading && r.error == Some(a.error) && r.slots == s.slots
  {
    if !Handled(a, |s.slots|) then s
    else match a
      case Request(_) => s.(loading := true, error := None)
      case Succeeded(i, data) => s.(loading := false, slots := s.slots[i := Some(data)])
      case Failed(_, error) => s.(loading := false, error := Some(error))
  }

  /** A request followed by its success: not loading, no error, and the data in its slot only. */
  lemma RequestThenSuccess<D, E>(s: State<D, E>, i: nat, d: D)
    requires i < |s.slots|
    ensures var r := Step(Step(s, Request(i)), Succeeded(i, d));
      && !r.loading && r.error.None?
      && r.slots[i] == Some(d)
      && forall j :: 0 <= j < |s.slots| && j != i ==> r.slots[j] == s.slots[j]
  {
  }

  /** Only a request action turns an error back into `null`. */
  lemma OnlyRequestClearsError<D, E>(s: State<D, E>, a: Action<D, E>)
    requires s.error.Some? && Step(s, a).error.None?
    ensures a.Request? && Handled(a, |s.slots|)
  {
  }

  /** After a handled success or failure nothing is loading. */
  lemma SettledIsNotLoading<D, E>(s: State<D, E>, a: Action<D, E>)
    requires Handled(a, |s.slots|) && !a.Request?
    ensures !Step(s, a).loading
  {
  }

  /** The state after dispatching every action of `trace`, in order. */
  function Run<D, E>(s: State<D, E>, trace: seq<Action<D, E>>): (r: State<D, E>)
    ensures |r.slots| == |s.slots|
  {
    if |trace| == 0 then s
    else Step(Run(s, trace[..|trace| - 1]), trace[|trace| - 1])
  }

  /** The action writes the slot at `i`. */
  predicate Writes<D, E>(a: Action<D, E>, i: nat) {
    a.Succeeded? && a.op == i
  }

  /** The action decides `error`: a handled request (clears it) or failure (sets it). */
  predicate Settles<D, E>(a: Action<D, E>, n: nat) {
    Handled(a, n) && !a.Succeeded?
  }

  /** Unhandled actions leave the whole state as it was. */
  lemma {:induction false} RunUnhandled<D, E>(s: State<D, E>, trace: seq<Action<D, E>>)
    requires forall m :: 0 <= m < |trace| ==> !Handled(trace[m], |s.slots|)
    ensures Run(s, trace) == s
  {
    if |trace| > 0 {
      RunUnhandled(s, trace[..|trace| - 1]);
    }
  }

  /** A slot holds the data of the last success for it. */
  lemma {:induction false} SlotIsLastSuccess<D, E>(s: State<D, E>, trace: seq<Action<D, E>>, i: nat, k: nat)
    requires i < |s.slots| && k < |trace| && Writes(trace[k], i)
    requires forall m :: k < m < |trace| ==> !Writes(trace[m], i)
    ensures Run(s, trace).slots[i] == Some(trace[k].data)
  {
    var init := trace[..|trace| - 1];
    if k < |trace| - 1 {
      SlotIsLastSuccess(s, init, i, k);
    }
  }

  /** A slot no success writes keeps its starting value. */
  lemma {:induction false} SlotWithoutSuccess<D, E>(s: State<D, E>, trace: seq<Action<D, E>>, i: nat)
    requires i < |s.slots|
    requires forall m :: 0 <= m < |trace| ==> !Writes(trace[m], i)
    ensures Run(s, trace).slots[i] == s.slots[i]
  {
    if |trace| > 0 {
      SlotWithoutSuccess(s, trace[..|trace| - 1], i);
    }
  }

  /** `loading` is true exactly when the last handled action was a request. */
  lemma {:induction false} LoadingFollowsLastHandled<D, E>(s: State<D, E>, trace: seq<Action<D, E>>, k: nat)
    requires k < |trace| && Handled(trace[k], |s.slots|)
    requires forall m :: k < m < |trace| ==> !Handled(trace[m], |s.slots|)
    ensures Run(s, trace).loading <==> trace[k].Request?
  {
    if k < |trace| - 1 {
      LoadingFollowsLastHandled(s, trace[..|trace| - 1], k);
    }
  }

  /**
    `error` is what the last handled request or failure left: `null` after a
    request, the payload after a failure; successes in between keep it.
   */
  lemma {:induction false} ErrorFollowsLastSettling<D, E>(s: State<D, E>, trace: seq<Action<D, E>>, k: nat)
    requires k < |trace| && Settles(trace[k], |s.slots|)
    requires forall m :: k < m < |trace| ==> !Settles(trace[m], |s.slots|)
    ensures Run(s, trace).error == if trace[k].Request? then None else Some(trace[k].error)
  {
    if k < |trace| - 1 {
      ErrorFollowsLastSettling(s, trace[..|trace| - 1], k);
    }
  }

  /** Without a handled request or failure, `error` keeps its starting value. */
  lemma {:induction false} ErrorWithoutSettling<D, E>(s: State<D, E>, trace: seq<Action<D, E>>)
    requires forall m :: 0 <= m < |trace| ==> !Settles(trace[m], |s.slots|)
    ensures Run(s, trace).error == s.error
  {
    if |trace| > 0 {
      ErrorWithoutSettling(s, trace[..|trace| - 1]);
    }
  }
}
