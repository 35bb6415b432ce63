/** The data hook behind the dashboard: five state cells and the fetch that
    updates them. The request's outcome is a parameter of the fetch, so the
    hook is modelled as a sequence of atomic fetches; the half-second delay
    and the asynchrony between `await`s are not part of this model. */
module UseResourceData {
  import opened Wrappers
  import opened Resource
  import Api
  import Progress
  import ResourceTable

  const DefaultInitialCount: int := 100
  const FallbackErrorMessage: string := "Failed to fetch resource data"

  /** What the service call can produce. */
  type FetchResult = Result<Api.ApiResponse<seq<ResourceWrapper>>, Api.ApiError>

  /** A snapshot of the five state cells. */
  datatype HookState = HookState(
    data: seq<ResourceWrapper>,
    loading: bool,
    error: Option<string>,
    progress: int,
    currentCount: int)

  /** The cells as first rendered. */
  function Initial(initialCount: int): (s: HookState)
    ensures s.data == [] && s.loading && s.error.None? && s.progress == 0
    ensures s.currentCount == initialCount
  {
    HookState([], true, None, 0, initialCount)
  }

  /** The head of the `try`: loading on, error cleared, progress reset;
      data and count are untouched. */
  function Started(s: HookState): (t: HookState)
    ensures t.loading && t.error.None? && t.progress == 0
    ensures t.data == s.data && t.currentCount == s.currentCount
  {
    s.(loading := true, error := None, progress := 0)
  }

  /** The message the `catch` stores: the error's own message, or the
      fallback text when that message is empty. */
  function ErrorMessage(e: Api.ApiError): (m: string)
    ensures m != ""
    ensures e.message != "" ==> m == e.message
    ensures e.message == "" ==> m == FallbackErrorMessage
  {
    if e.message != "" then e.message else FallbackErrorMessage
  }

  /** The count a call uses: its argument, or the last successful count. */
  function ResolveCount(s: HookState, requested: Option<int>): (count: int)
    ensures requested.Some? ==> count == requested.value
    ensures requested.None? ==> count == s.currentCount
  {
    requested.GetOr(s.currentCount)
  }

  /** The rest of the `try`, the `catch` and the `finally`, applied to a
      started state. */
  function Settled(s: HookState, count: int, outcome: FetchResult): (t: HookState)
    ensures !t.loading && t.progress == 100
    ensures outcome.Success? ==> t.data == outcome.value.data && t.currentCount == count && t.error == s.error
    ensures outcome.Failure? ==> t.data == s.data && t.currentCount == s.currentCount
                                 && t.error == Some(ErrorMessage(outcome.error))
  {
    var t := match outcome
      case Success(response) => s.(data := response.data, currentCount := count)
      case Failure(e) => s.(error := Some(ErrorMessage(e)));
    t.(progress := 100, loading := false)
  }

  /** One whole call of `fetchData`. */
  function AfterFetch(s: HookState, requested: Option<int>, outcome: FetchResult): (t: HookState)
    ensures Idle(t)
    ensures t.error.Some? <==> outcome.Failure?
    ensures outcome.Success? ==> t.data == outcome.value.data && t.currentCount == ResolveCount(s, requested)
    ensures outcome.Failure? ==> t.data == s.data && t.currentCount == s.currentCount
  {
    Settled(Started(s), ResolveCount(s, requested), outcome)
  }

  /** A settled hook: not loading, progress full, and an error, if any, is
      a non-empty message. */
  predicate Idle(s: HookState) {
    !s.loading && s.progress == 100 && (s.error.Some? ==> s.error.value != "")
  }

  /** The progress value is one the progress bar would show unchanged. */
  predicate ProgressShown(s: HookState) {
    Progress.Clamp(s.progress as real) == s.progress as real
  }

  /** Every completed fetch leaves the hook idle: loading off, progress at
      100, whatever the outcome. */
  lemma {:induction false} FetchSettles(s: HookState, requested: Option<int>, outcome: FetchResult)
    ensures Idle(AfterFetch(s, requested, outcome))
    ensures ProgressShown(AfterFetch(s, requested, outcome))
  {
  }

  /** After a completed fetch the error is present exactly when that fetch
      failed. */
  lemma {:induction false} ErrorIffFailed(s: HookState, requested: Option<int>, outcome: FetchResult)
    ensures AfterFetch(s, requested, outcome).error.Some? <==> outcome.Failure?
  {
  }

  /** A successful fetch replaces the data wholesale and records the count
      it used. */
  lemma {:induction false} SuccessReplacesData(s: HookState, requested: Option<int>, outcome: FetchResult)
    requires outcome.Success?
    ensures AfterFetch(s, requested, outcome).data == outcome.value.data
    ensures AfterFetch(s, requested, outcome).currentCount == requested.GetOr(s.currentCount)
  {
  }

  /** A failed fetch keeps the data and the count and stores the message. */
  lemma {:induction false} FailureKeepsData(s: HookState, requested: Option<int>, outcome: FetchResult)
    requires outcome.Failure?
    ensures AfterFetch(s, requested, outcome).data == s.data
    ensures AfterFetch(s, requested, outcome).currentCount == s.currentCount
    ensures AfterFetch(s, requested, outcome).error == Some(ErrorMessage(outcome.error))
  {
  }

  /** The table shows the error card after a failed fetch, with the stored
      message, and the table otherwise. */
  lemma {:induction false} FailedFetchShowsErrorCard(s: HookState, requested: Option<int>, outcome: FetchResult,
                                  search: string)
    ensures var t := AfterFetch(s, requested, outcome);
            var v := ResourceTable.Render(t.data, t.loading, t.error, true, search);
            (v.ErrorCard? <==> outcome.Failure?)
            && (outcome.Failure? ==> v.message == ErrorMessage(outcome.error))
  {
  }

  // ---------------------------------------------------------------------
  // A run of fetches

  /** One call of `fetchData`: its optional argument and its outcome. */
  datatype Call = Call(requested: Option<int>, outcome: FetchResult)

  /** The state after the calls, applied in order. */
  function Replay(s: HookState, calls: seq<Call>): (t: HookState)
    ensures calls == [] ==> t == s
    ensures calls != [] ==> Idle(t)
    ensures (forall i | 0 <= i < |calls| :: calls[i].outcome.Failure?) ==>
              t.data == s.data && t.currentCount == s.currentCount
    decreases |calls|
  {
    if calls == [] then s
    else Replay(AfterFetch(s, calls[0].requested, calls[0].outcome), calls[1..])
  }

  /** The count the hook holds after the calls, read backwards: the count of
      the last successful call, which is its own argument or, without one,
      the count before it. */
  function LastSuccessfulCount(initial: int, calls: seq<Call>): int
    decreases |calls|
  {
    if calls == [] then initial
    else
      var last := calls[|calls| - 1];
      var before := LastSuccessfulCount(initial, calls[..|calls| - 1]);
      if last.outcome.Success? then last.requested.GetOr(before) else before
  }

  /** The data the hook holds after the calls: the last successful
      response's, or the data it started with. */
  function LastSuccessfulData(initial: seq<ResourceWrapper>, calls: seq<Call>): seq<ResourceWrapper>
    decreases |calls|
  {
    if calls == [] then initial
    else
      var last := calls[|calls| - 1];
      if last.outcome.Success? then last.outcome.value.data
      else LastSuccessfulData(initial, calls[..|calls| - 1])
  }

  /** Replaying a run is replaying its prefix, then its last call. */
  lemma {:induction false} ReplaySnoc(s: HookState, calls: seq<Call>, c: Call)
    ensures Replay(s, calls + [c]) == AfterFetch(Replay(s, calls), c.requested, c.outcome)
    decreases |calls|
  {
    if calls == [] {
      assert [c][1..] == [];
    } else {
      assert (calls + [c])[1..] == calls[1..] + [c];
      ReplaySnoc(AfterFetch(s, calls[0].requested, calls[0].outcome), calls[1..], c);
    }
  }

  /** A refetch without an argument uses the last successfully requested
      count, and the data shown is the last successful response's. */
  lemma {:induction false} ReplayKeepsLastSuccess(s: HookState, calls: seq<Call>)
    ensures Replay(s, calls).currentCount == LastSuccessfulCount(s.currentCount, calls)
    ensures Replay(s, calls).data == LastSuccessfulData(s.data, calls)
    decreases |calls|
  {
    if calls != [] {
      var prefix := calls[..|calls| - 1];
      var last := calls[|calls| - 1];
      assert calls == prefix + [last];
      ReplaySnoc(s, prefix, last);
      ReplayKeepsLastSuccess(s, prefix);
    }
  }

  /** After the first call the hook is always idle, whatever came before. */
  lemma {:induction false} ReplayIdle(s: HookState, calls: seq<Call>)
    requires calls != []
    ensures Idle(Replay(s, calls))
    ensures Replay(s, calls).error.Some? <==> calls[|calls| - 1].outcome.Failure?
    decreases |calls|
  {
    var prefix := calls[..|calls| - 1];
    var last := calls[|calls| - 1];
    assert calls == prefix + [last];
    ReplaySnoc(s, prefix, last);
  }

  // ---------------------------------------------------------------------
  // The hook itself

  /** The hook's five state cells. The mount effect is one `FetchData` call
      with `Some(initialCount)`. */
  class ResourceDataHook {
    var data: seq<ResourceWrapper>
    var loading: bool
    var error: Option<string>
    var progress: int
    var currentCount: int

    function State(): HookState
      reads this
    {
      HookState(data, loading, error, progress, currentCount)
    }

    /** `useResourceData(initialCount = 100)`: the state before the first
        fetch. */
    constructor(initialCount: Option<int>)
      ensures State() == Initial(initialCount.GetOr(DefaultInitialCount))
    {
      data := [];
      loading := true;
      error := None;
      progress := 0;
      currentCount := initialCount.GetOr(DefaultInitialCount);
    }

    /** `fetchData(count = currentCount)` with the service call's outcome. */
    method FetchData(requested: Option<int>, outcome: FetchResult)
      modifies this
      ensures State() == AfterFetch(old(State()), requested, outcome)
    {
      var count := requested.GetOr(currentCount);
      loading := true;
      error := None;
      progress := 0;
      assert State() == Started(old(State()));
      match outcome {
        case Success(response) =>
          data := response.data;
          currentCount := count;
        case Failure(e) =>
          error := Some(ErrorMessage(e));
      }
      progress := 100;
      loading := false;
    }
  }
}
