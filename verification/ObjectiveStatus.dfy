/** The statuses an objective moves through. */
module ObjectiveStatus {
  datatype Status = Planning | Queue | Working | AiReview | Review | Done | Cancelled
}
