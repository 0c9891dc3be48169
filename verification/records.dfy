/** The rows of the data store that the components read and write. */
module Records {
  /** The `status` column of a task completion: 'completed' or 'failed'. */
  datatype Status = Completed | Failed

  type TaskId = string
  type JourneyId = string
  type UserId = string
  type RowId = string

  /** A daily task as the tracker loads it. */
  datatype DailyTask = DailyTask(id: TaskId, taskText: string, orderIndex: int)

  /** A journey as the dashboard loads it; dates are day numbers. */
  datatype Journey = Journey(id: JourneyId, title: string, description: string, durationDays: int, startDate: int)
}
