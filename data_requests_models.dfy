/** The front end's data-request DTO helpers (`data-requests.models.ts`). */
module DataRequestsModels {
  import opened Status

  /** `isFinalStatus`: a request that has succeeded or failed. */
  predicate IsFinalStatus(s: RequestStatus)
    ensures IsFinalStatus(s) <==> s != Pending
  {
    s == Succeeded || s == Failed
  }
}
