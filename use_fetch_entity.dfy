/**
 * The single-entity fetch hook: a reducer over the loading state and the
 * entity, its initial state, and the actions the effect dispatches when the
 * uuid is set and when the response arrives. Navigation to a not-found page is
 * commented out in the hook, so a not-found answer for a known entity type
 * dispatches nothing.
 */
module UseFetchEntity {
  import opened Common

  /** The loading states "fetching", "completed" and "error". */
  datatype LoadingState = Fetching | Completed | Failed

  datatype ErrorType = ErrorType(key: string, message: string)

  /** A request error as the API layer hands it over: global errors and errors per field. */
  datatype RequestError = RequestError(global: seq<ErrorType>, fields: map<string, seq<ErrorType>>)

  /** A response: its status ("success" is true), the optional HTTP status code, the error and the data. */
  datatype Response<E> = Response(success: bool, statusCode: Option<int>, error: Option<RequestError>, data: Option<E>)

  datatype State<E> = State(entity: Option<E>, loadingState: LoadingState)

  datatype Action<E> =
    | FetchingAction
    | CompletedAction(payload: Option<E>)
    | ErrorAction(error: RequestError)
    | UpdateEntity(entity: E)

  const NotFoundKey := "error.ResourceNotFoundException"

  /** The reducer. */
  function Reduce<E>(prev: State<E>, action: Action<E>): State<E>
  {
    match action
    case FetchingAction => State(None, Fetching)
    case CompletedAction(payload) => State(payload, Completed)
    case ErrorAction(_) => State(None, Failed)
    case UpdateEntity(entity) => prev.(entity := Some(entity))
  }

  /** Dispatching several actions in order. */
  function Run<E>(s: State<E>, actions: seq<Action<E>>): State<E>
    decreases |actions|
  {
    if |actions| == 0 then s else Run(Reduce(s, actions[0]), actions[1..])
  }

  /** The initial state: fetching exactly when a uuid is given, and no entity. */
  function InitialState<E>(uuid: string): State<E>
  {
    State(None, if uuid != "" then Fetching else Completed)
  }

  /** What the effect dispatches before the request: FETCHING unless already fetching, or COMPLETED with null without a uuid. */
  function StartActions<E>(uuid: string, loadingState: LoadingState): seq<Action<E>>
  {
    if uuid != "" then (if loadingState != Fetching then [FetchingAction] else [])
    else [CompletedAction(None)]
  }

  /** What handling a response can come to: the actions dispatched, or a TypeError thrown in the callback. */
  datatype Outcome<E> = Dispatched(actions: seq<Action<E>>) | ThrowsTypeError

  /** A success with data dispatches COMPLETED with it; a success without data nothing. */
  function SuccessActions<E>(response: Response<E>): seq<Action<E>>
  {
    if response.success && response.data.Some? then [CompletedAction(response.data)] else []
  }

  /** The error branch once the not-found test is decided: nothing for a not-found of a known type, ERROR when an error is present. */
  function ErrorActions<E>(response: Response<E>, notFound: bool, hasEntityType: bool): seq<Action<E>>
  {
    if notFound && hasEntityType then []
    else if response.error.Some? then [ErrorAction(response.error.value)]
    else []
  }

  /**
   * The response callback as written: the not-found test reads the key of the
   * first global error without checking there is one, so an error that is not
   * a 404 and has no global error throws.
   */
  function HandleResponseAsWritten<E>(response: Response<E>, cancelled: bool, hasEntityType: bool): Outcome<E>
  {
    if cancelled then Dispatched([])
    else if response.success then Dispatched(SuccessActions(response))
    else if response.statusCode == Some(404) then Dispatched(ErrorActions(response, true, hasEntityType))
    else if response.error.Some? && |response.error.value.global| == 0 then ThrowsTypeError
    else
      var notFound := response.error.Some? && response.error.value.global[0].key == NotFoundKey;
      Dispatched(ErrorActions(response, notFound, hasEntityType))
  }

  /** Whether the first global error, when there is one, is the not-found error. */
  predicate FirstGlobalIsNotFound(error: Option<RequestError>)
  {
    error.Some? && |error.value.global| > 0 && error.value.global[0].key == NotFoundKey
  }

  /** The response callback with the first global error read optionally. */
  function HandleResponse<E>(response: Response<E>, cancelled: bool, hasEntityType: bool): Outcome<E>
  {
    if cancelled then Dispatched([])
    else if response.success then Dispatched(SuccessActions(response))
    else
      var notFound := response.statusCode == Some(404) || FirstGlobalIsNotFound(response.error);
      Dispatched(ErrorActions(response, notFound, hasEntityType))
  }

  /**
   * FETCHING and ERROR clear the entity, COMPLETED installs its payload, and
   * UPDATE_ENTITY replaces the entity while keeping the loading state; every
   * action but UPDATE_ENTITY sets the loading state it names, whatever the state before.
   */
  lemma ReduceMeaning<E>(prev: State<E>, other: State<E>, action: Action<E>)
    ensures !action.UpdateEntity? ==> Reduce(prev, action) == Reduce(other, action)
    ensures Reduce(prev, action).entity.Some? <==>
      (action.CompletedAction? && action.payload.Some?) || action.UpdateEntity?
    ensures action.CompletedAction? ==> Reduce(prev, action).entity == action.payload
    ensures action.UpdateEntity? ==> Reduce(prev, action) == State(Some(action.entity), prev.loadingState)
    ensures Reduce(prev, action).loadingState == Fetching <==>
      action.FetchingAction? || (action.UpdateEntity? && prev.loadingState == Fetching)
    ensures Reduce(prev, action).loadingState == Failed <==>
      action.ErrorAction? || (action.UpdateEntity? && prev.loadingState == Failed)
  {
  }

  /** Dispatching a sequence of actions one after another is dispatching the first part, then the rest. */
  lemma {:induction false} RunAppend<E>(s: State<E>, a: seq<Action<E>>, b: seq<Action<E>>)
    ensures Run(s, a + b) == Run(Run(s, a), b)
    decreases |a|
  {
    if |a| > 0 {
      assert (a + b)[1..] == a[1..] + b;
      RunAppend(Reduce(s, a[0]), a[1..], b);
    } else {
      assert a + b == b;
    }
  }

  /**
   * Starting the effect for a uuid always leaves the hook fetching, and with
   * no entity unless it was fetching already; without a uuid it is completed with no
   * entity. On the first render the initial state already matches, so no
   * FETCHING is dispatched.
   */
  lemma StartMeaning<E>(uuid: string, s: State<E>)
    ensures uuid != "" ==> Run(s, StartActions(uuid, s.loadingState)).loadingState == Fetching
    ensures uuid != "" && s.loadingState != Fetching ==> Run(s, StartActions(uuid, s.loadingState)) == State(None, Fetching)
    ensures uuid == "" ==> Run(s, StartActions(uuid, s.loadingState)) == State(None, Completed)
    ensures Run(InitialState<E>(uuid), StartActions(uuid, InitialState<E>(uuid).loadingState)) == InitialState(uuid)
    ensures uuid != "" ==> StartActions<E>(uuid, InitialState<E>(uuid).loadingState) == []
  {
  }

  /**
   * A cancelled callback dispatches nothing; a success installs its data;
   * a 404 or a not-found first error for a known entity type dispatches
   * nothing; any other error is reported with ERROR.
   */
  lemma HandleResponseMeaning<E>(response: Response<E>, cancelled: bool, hasEntityType: bool, s: State<E>)
    ensures HandleResponse(response, cancelled, hasEntityType).Dispatched?
    ensures cancelled ==> HandleResponse(response, cancelled, hasEntityType) == Dispatched([])
    ensures !cancelled && response.success && response.data.Some? ==>
      Run(s, HandleResponse(response, cancelled, hasEntityType).actions) == State(response.data, Completed)
    ensures !response.success && hasEntityType && (response.statusCode == Some(404) || FirstGlobalIsNotFound(response.error)) ==>
      HandleResponse(response, cancelled, hasEntityType) == Dispatched([])
    ensures (!cancelled && !response.success && response.error.Some?
      && !(hasEntityType && (response.statusCode == Some(404) || FirstGlobalIsNotFound(response.error)))) ==>
      Run(s, HandleResponse(response, cancelled, hasEntityType).actions) == State(None, Failed)
    ensures |HandleResponse(response, cancelled, hasEntityType).actions| <= 1
  {
    var out := HandleResponse(response, cancelled, hasEntityType);
    if |out.actions| == 1 {
      assert Run(s, out.actions) == Run(Reduce(s, out.actions[0]), []);
    }
  }

  /**
   * The code as written agrees with the corrected callback on every response
   * except an error that is not a 404 and carries no global error, for which
   * it throws.
   */
  lemma AsWrittenAgrees<E>(response: Response<E>, cancelled: bool, hasEntityType: bool)
    ensures HandleResponseAsWritten(response, cancelled, hasEntityType) == ThrowsTypeError <==>
      !cancelled && !response.success && response.statusCode != Some(404)
      && response.error.Some? && |response.error.value.global| == 0
    ensures HandleResponseAsWritten(response, cancelled, hasEntityType) != ThrowsTypeError ==>
      HandleResponseAsWritten(response, cancelled, hasEntityType) == HandleResponse(response, cancelled, hasEntityType)
  {
  }

  /**
   * A 500 answer whose error holds only field errors: as written the callback
   * throws, so nothing is dispatched and the hook stays "fetching"; corrected,
   * it is reported and the hook ends in "error".
   */
  lemma EmptyGlobalStaysFetching<E>(fields: map<string, seq<ErrorType>>, uuid: string)
    requires uuid != ""
    ensures var response: Response<E> := Response(false, Some(500), Some(RequestError([], fields)), None);
      HandleResponseAsWritten(response, false, true) == ThrowsTypeError
      && InitialState<E>(uuid).loadingState == Fetching
      && Run(InitialState<E>(uuid), HandleResponse(response, false, true).actions) == State(None, Failed)
  {
    var response: Response<E> := Response(false, Some(500), Some(RequestError([], fields)), None);
    var actions := HandleResponse(response, false, true).actions;
    assert actions == [ErrorAction(RequestError([], fields))];
    assert Run(InitialState<E>(uuid), actions) == Run(State(None, Failed), actions[1..]);
  }

  /**
   * The whole life of a fetch for a uuid: from any state, the start and a
   * successful response leave the fetched entity, completed; a success without
   * data leaves the hook fetching; an error that is not a not-found leaves no
   * entity, in "error".
   */
  lemma FetchLifecycle<E>(uuid: string, s: State<E>, response: Response<E>, hasEntityType: bool)
    requires uuid != ""
    ensures var started := Run(s, StartActions(uuid, s.loadingState));
      var done := Run(started, HandleResponse(response, false, hasEntityType).actions);
      (response.success && response.data.Some? ==> done == State(response.data, Completed))
      && (response.success && response.data.None? ==> done == started && done.loadingState == Fetching)
      && (!response.success && response.error.Some?
          && !(hasEntityType && (response.statusCode == Some(404) || FirstGlobalIsNotFound(response.error))) ==>
          done == State(None, Failed))
  {
    var started := Run(s, StartActions(uuid, s.loadingState));
    StartMeaning(uuid, s);
    HandleResponseMeaning(response, false, hasEntityType, started);
  }
}
