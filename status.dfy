/** The lifecycle states of a data request, shared by the backend store and the frontend. */
module Status {
  /** `USER_REQUEST_STATUS` in the backend; `RequestStatus` and `DataRequestStatus` in the frontend. */
  datatype RequestStatus = Pending | Succeeded | Failed
}
