/** The statuses a job hash can hold (src/shared/constants/statuses.py), shared by the protocols on jobs. */
module JobStatus {
  datatype Status = Scanning | Awaiting | Queued | Processing | Completed | Failed | Denied
}
