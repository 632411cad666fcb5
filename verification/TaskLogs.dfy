/** The status of an export's task log. */
module TaskLogs {
  datatype LogStatus = Enqueued | InProgress | Complete | Failed | Fatal
}
