/** The JSON envelope every handler answers with (src/server/api.rs): a
    success flag, optional data, optional error text and an optional cache
    status, built by four constructors, and the mapping from the cache's
    refresh status to the status the client sees. */
module Api {
  import opened Wrappers

  /** The refresh state of a server-side cache. The type lives in the server state
      module, whose definition of it is not part of this model; its four variants are
      those the mapping below matches on. */
  datatype RefreshStatus = NotNeeded | InProgressServeStale | InProgressWait | NeedsRefresh

  /** The cache status as the client sees it. */
  datatype ApiRefreshStatus = Ready | Loading | Refreshing

  datatype ApiResponse<T> = ApiResponse(success: bool, data: Option<T>, error: Option<string>,
                                        status: Option<ApiRefreshStatus>)
  {
    /** `ApiResponse::success`: the data, no error, status "ready". */
    static function Success(d: T): (r: ApiResponse<T>)
      ensures Consistent(r) && r.success
      ensures r.data == Some(d) && r.status == Some(Ready)
    {
      ApiResponse(true, Some(d), None, Some(Ready))
    }

    /** `ApiResponse::success_with_status`: the data, no error, the given status. */
    static function SuccessWithStatus(d: T, s: ApiRefreshStatus): (r: ApiResponse<T>)
      ensures Consistent(r) && r.success
      ensures r.data == Some(d) && r.status == Some(s)
    {
      ApiResponse(true, Some(d), None, Some(s))
    }

    /** `ApiResponse::loading`: success without data, status "loading". */
    static function Loading(): (r: ApiResponse<T>)
      ensures Consistent(r) && r.success
      ensures r.data.None? && r.status == Some(ApiRefreshStatus.Loading)
    {
      ApiResponse(true, None, None, Some(ApiRefreshStatus.Loading))
    }

    /** `ApiResponse::error`: failure carrying the message, no data, no status. */
    static function Error(message: string): (r: ApiResponse<T>)
      ensures Consistent(r) && !r.success
      ensures r.error == Some(message) && r.data.None? && r.status.None?
    {
      ApiResponse(false, None, Some(message), None)
    }
  }

  /** A response is consistent when it succeeds exactly when it carries no error, and
      carries data only when it succeeds. */
  predicate Consistent<T>(r: ApiResponse<T>) {
    (r.success <==> r.error.None?) && (r.data.Some? ==> r.success)
  }

  /** `From<RefreshStatus> for ApiRefreshStatus`: nothing to do is "ready", a refresh
      behind stale data is "refreshing", and a refresh the client must wait for (or one
      not yet started) is "loading". */
  function FromRefreshStatus(s: RefreshStatus): (a: ApiRefreshStatus)
    ensures a == Ready <==> s == NotNeeded
    ensures a == Refreshing <==> s == InProgressServeStale
    ensures a == ApiRefreshStatus.Loading <==> s == InProgressWait || s == NeedsRefresh
  {
    match s
    case NotNeeded => Ready
    case InProgressServeStale => Refreshing
    case InProgressWait => ApiRefreshStatus.Loading
    case NeedsRefresh => ApiRefreshStatus.Loading
  }

  /** Every client status is the image of some refresh status. */
  lemma FromRefreshStatusOnto(a: ApiRefreshStatus)
    ensures exists s :: FromRefreshStatus(s) == a
  {
    match a
    case Ready => assert FromRefreshStatus(NotNeeded) == a;
    case Refreshing => assert FromRefreshStatus(InProgressServeStale) == a;
    case Loading => assert FromRefreshStatus(NeedsRefresh) == a;
  }

  /** Two refresh statuses share a client status: the mapping loses information. */
  lemma FromRefreshStatusNotInjective()
    ensures exists s, t :: s != t && FromRefreshStatus(s) == FromRefreshStatus(t)
  {
    assert FromRefreshStatus(InProgressWait) == FromRefreshStatus(NeedsRefresh);
  }

  /** `success` is the default-status case of `success_with_status`. */
  lemma SuccessIsReadyStatus<T>(d: T)
    ensures ApiResponse.Success(d) == ApiResponse.SuccessWithStatus(d, Ready)
  {
  }
}
