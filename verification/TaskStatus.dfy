/** The status of a task object, as `cocoflow-comm.h` keeps it. */
module TaskStatus {
  datatype Status = Ready | Running | Completed | Canceled
}
