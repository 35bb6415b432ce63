/** The API service: one HTTP request wrapped with error normalisation, and
    the transform that turns the first ten placeholder posts into resource
    records. The network exchange is an input (`HttpExchange`), and so is
    every random draw (`PostDraw`). */
module Api {
  import opened Wrappers
  import opened Resource
  import opened Random
  import Text
  import Pools

  /** A post as the placeholder service returns it. */
  datatype Post = Post(userId: int, id: int, title: string, body: string)

  /** A successful response; `message` is optional. */
  datatype ApiResponse<T> = ApiResponse(data: T, status: int, message: Option<string>)

  /** The normalised error every failing request is turned into. */
  datatype ApiError = ApiError(message: string, status: int)

  /** Whatever a `catch` can receive: an `Error` object, which carries a
      message and possibly a `status` property, or any other value. */
  datatype Thrown = ErrorObject(message: string, status: Option<int>) | OtherValue

  /** The outcome of `fetch`: either a response with a status and a body that
      `response.json()` reads (or fails to read), or a rejected promise. */
  datatype HttpExchange<T> =
    | Responded(status: int, body: Result<T, Thrown>)
    | Rejected(cause: Thrown)

  const UnknownErrorMessage: string := "An unknown error occurred"
  const DefaultErrorStatus: int := 500
  const HttpErrorPrefix: string := "HTTP error! status: "
  const SuccessMessage: string := "Successfully fetched resource data"

  /** `response.ok`: the status is in the range 200 to 299. */
  predicate IsOk(status: int) {
    200 <= status <= 299
  }

  /** The `catch` clause of the request wrapper: an `Error` keeps its message
      and its own status when it has one, otherwise 500; anything else is an
      unknown error with status 500. */
  function NormalizeError(e: Thrown): (r: ApiError)
    ensures e.OtherValue? ==> r == ApiError(UnknownErrorMessage, DefaultErrorStatus)
    ensures e.ErrorObject? ==> r.message == e.message
    ensures e.ErrorObject? && e.status.None? ==> r.status == DefaultErrorStatus
    ensures e.ErrorObject? && e.status.Some? ==> r.status == e.status.value
  {
    match e
    case OtherValue => ApiError(UnknownErrorMessage, DefaultErrorStatus)
    case ErrorObject(message, status) => ApiError(message, status.GetOr(DefaultErrorStatus))
  }

  /** The error the wrapper throws for a response that is not ok: a plain
      `Error` whose message names the status and which has no `status`
      property of its own. */
  function HttpError(status: int): (e: Thrown)
    ensures e.ErrorObject? && e.status.None?
    ensures Text.IsPrefix(HttpErrorPrefix, e.message)
    ensures Text.ParseInt(e.message[|HttpErrorPrefix|..]) == Some(status)
  {
    var m := HttpErrorPrefix + Text.IntToString(status);
    assert m[|HttpErrorPrefix|..] == Text.IntToString(status) + [];
    Text.ParseIntOfIntToString(status, []);
    ErrorObject(HttpErrorPrefix + Text.IntToString(status), None)
  }

  /** The request wrapper: a response that is ok and whose body reads yields
      that body and status with no message; every other path is normalised. */
  function FetchWithErrorHandling<T>(x: HttpExchange<T>): (r: Result<ApiResponse<T>, ApiError>)
    ensures r.Success? <==> x.Responded? && IsOk(x.status) && x.body.Success?
    ensures r.Success? ==> r.value == ApiResponse(x.body.value, x.status, None)
    ensures x.Rejected? ==> r == Failure(NormalizeError(x.cause))
    ensures x.Responded? && !IsOk(x.status) ==>
              r == Failure(ApiError(HttpErrorPrefix + Text.IntToString(x.status), DefaultErrorStatus))
    ensures x.Responded? && IsOk(x.status) && x.body.Failure? ==> r == Failure(NormalizeError(x.body.error))
  {
    match x
    case Rejected(cause) => Failure(NormalizeError(cause))
    case Responded(status, body) =>
      if !IsOk(status) then Failure(NormalizeError(HttpError(status)))
      else match body
        case Failure(e) => Failure(NormalizeError(e))
        case Success(v) => Success(ApiResponse(v, status, None))
  }

  /** The status of a failed response can be read back from the error
      message, although the normalised error itself reports 500. */
  lemma {:induction false} HttpErrorNamesStatus<T>(status: int, body: Result<T, Thrown>)
    requires !IsOk(status)
    ensures var r := FetchWithErrorHandling(Responded(status, body));
            && r.Failure?
            && r.error.status == DefaultErrorStatus
            && Text.IsPrefix(HttpErrorPrefix, r.error.message)
            && Text.ParseInt(r.error.message[|HttpErrorPrefix|..]) == Some(status)
  {
    var m := HttpErrorPrefix + Text.IntToString(status);
    assert m[|HttpErrorPrefix|..] == Text.IntToString(status) + [];
    Text.ParseIntOfIntToString(status, []);
  }

  /** Normalising an already normalised error (re-thrown as an `Error` with
      its status) changes nothing. */
  lemma {:induction false} NormalizeErrorStable(e: Thrown)
    ensures var r := NormalizeError(e);
            NormalizeError(ErrorObject(r.message, Some(r.status))) == r
  {
  }

  // ---------------------------------------------------------------------
  // Posts to resources

  /** The random draws behind one transformed post, in the order the source
      makes them. Timestamps and the uid suffix are taken as given strings. */
  datatype PostDraw = PostDraw(
    state: Unit,
    createdTime: string,
    fetchTime: string,
    processedRoll: Unit,
    processedTime: string,
    keyType: Unit,
    uidSuffix: string,
    patient: Unit,
    resourceType: Unit,
    version: Unit,
    summaryRoll: Unit)

  /** `getRandomProcessingState`: one of the four states other than unspecified. */
  function RandomProcessingState(u: Unit): (s: ProcessingState)
    ensures s in Pools.GeneratedStates
  {
    Pools.GeneratedStates[Pick(u, |Pools.GeneratedStates|)]
  }

  /** `getRandomResourceType`: one of the eight resource types. */
  function RandomResourceType(u: Unit): (t: string)
    ensures t in Pools.ResourceTypes
  {
    Pools.ResourceTypes[Pick(u, |Pools.ResourceTypes|)]
  }

  /** `getRandomFhirVersion`: R4 when the draw exceeds one half, R4B otherwise. */
  function RandomFhirVersion(u: Unit): (v: FhirVersion)
    ensures v == R4 || v == R4B
  {
    if u > 0.5 then R4 else R4B
  }

  /** The key's fixed part: "resource-<post id>-". */
  function KeyPrefix(post: Post): string {
    "resource-" + Text.IntToString(post.id) + "-"
  }

  /** The record built from the post at position `index`. The key's type
      segment comes from its own draw, independent of `resourceType`. */
  function PostResource(post: Post, index: nat, d: PostDraw): (r: ResourceWrapper)
    ensures r.resource.humanReadableStr == Pools.HealthcareDescriptions[index % |Pools.HealthcareDescriptions|]
    ensures r.resource.aiSummary.None? <==> !(d.summaryRoll > 0.3)
    ensures r.resource.aiSummary.Some? ==> r.resource.aiSummary.value == Pools.AiSummaries[index % |Pools.AiSummaries|]
    ensures r.State() in Pools.GeneratedStates && r.State() != Unspecified
    ensures r.resource.metadata.version != VersionUnspecified
    ensures r.resource.metadata.processedTime.Some? <==> d.processedRoll > 0.3
    ensures Text.IsPrefix(KeyPrefix(post), r.resource.metadata.identifier.key)
    ensures r.resource.metadata.resourceType in Pools.ResourceTypes
    ensures NumberedPatient(r.PatientId(), 100)
  {
    var patient := Pick(d.patient, 100) + 1;
    var id := Identifier(
      KeyPrefix(post) + Text.Lower(RandomResourceType(d.keyType)),
      "uid-" + Text.IntToString(post.id) + "-" + d.uidSuffix,
      PatientIdFor(patient));
    var m := Metadata(
      RandomProcessingState(d.state),
      d.createdTime,
      d.fetchTime,
      if d.processedRoll > 0.3 then Some(d.processedTime) else None,
      id,
      RandomResourceType(d.resourceType),
      RandomFhirVersion(d.version));
    ResourceWrapper(ResourceJson(
      m,
      Pools.HealthcareDescriptions[index % |Pools.HealthcareDescriptions|],
      if d.summaryRoll > 0.3 then Some(Pools.AiSummaries[index % |Pools.AiSummaries|]) else None))
  }

  /** At most this many posts are transformed. */
  const MaxPosts: nat := 10

  /** The first ten posts, each turned into a record by its position. */
  function Transform(posts: seq<Post>, draws: nat -> PostDraw): (rs: seq<ResourceWrapper>)
    ensures |rs| == if |posts| < MaxPosts then |posts| else MaxPosts
    ensures forall i | 0 <= i < |rs| :: rs[i] == PostResource(posts[i], i, draws(i))
  {
    var taken := posts[..if |posts| < MaxPosts then |posts| else MaxPosts];
    seq(|taken|, i requires 0 <= i < |taken| => PostResource(taken[i], i, draws(i)))
  }

  /** Every transformed record follows its post: record `i` carries the
      key of post `i`, the `i`-th description, and the `i`-th summary or none. */
  lemma {:induction false} TransformFollowsPosts(posts: seq<Post>, draws: nat -> PostDraw)
    ensures var rs := Transform(posts, draws);
            && |rs| <= MaxPosts
            && (|posts| <= MaxPosts ==> |rs| == |posts|)
            && forall i | 0 <= i < |rs| ::
                 && Text.IsPrefix(KeyPrefix(posts[i]), rs[i].resource.metadata.identifier.key)
                 && rs[i].resource.humanReadableStr == Pools.HealthcareDescriptions[i]
                 && (rs[i].resource.aiSummary.None? || rs[i].resource.aiSummary == Some(Pools.AiSummaries[i]))
                 && rs[i].State() != Unspecified
                 && NumberedPatient(rs[i].PatientId(), 100)
  {
    var rs := Transform(posts, draws);
    forall i | 0 <= i < |rs|
      ensures rs[i].resource.humanReadableStr == Pools.HealthcareDescriptions[i]
      ensures rs[i].resource.aiSummary.None? || rs[i].resource.aiSummary == Some(Pools.AiSummaries[i])
    {
      PostResourceInRange(posts[i], i, draws(i));
    }
  }

  /** Within the first ten positions the pools are indexed without wrapping. */
  lemma {:induction false} PostResourceInRange(post: Post, index: nat, d: PostDraw)
    requires index < MaxPosts
    ensures PostResource(post, index, d).resource.humanReadableStr == Pools.HealthcareDescriptions[index]
    ensures var s := PostResource(post, index, d).resource.aiSummary;
            s.None? || s == Some(Pools.AiSummaries[index])
  {
    assert index % |Pools.HealthcareDescriptions| == index;
    assert index % |Pools.AiSummaries| == index;
  }

  /** `getResourceWrappers`: fetch the posts and transform them; a failed
      request is passed on unchanged. */
  function GetResourceWrappers(x: HttpExchange<seq<Post>>, draws: nat -> PostDraw)
    : (r: Result<ApiResponse<seq<ResourceWrapper>>, ApiError>)
    ensures r.Success? <==> FetchWithErrorHandling(x).Success?
    ensures r.Success? ==>
              && r.value.data == Transform(FetchWithErrorHandling(x).value.data, draws)
              && r.value.status == FetchWithErrorHandling(x).value.status
              && r.value.message == Some(SuccessMessage)
    ensures r.Failure? ==> r.error == FetchWithErrorHandling(x).error
  {
    match FetchWithErrorHandling(x)
    case Failure(e) => Failure(e)
    case Success(response) =>
      Success(ApiResponse(Transform(response.data, draws), response.status, Some(SuccessMessage)))
  }

  /** A successful fetch of the resources always reports an ok status and
      at most ten records. */
  lemma {:induction false} ResourcesResponseBounds(x: HttpExchange<seq<Post>>, draws: nat -> PostDraw)
    requires GetResourceWrappers(x, draws).Success?
    ensures IsOk(GetResourceWrappers(x, draws).value.status)
    ensures |GetResourceWrappers(x, draws).value.data| <= MaxPosts
  {
  }
}
