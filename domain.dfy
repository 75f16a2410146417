/**
  The values the timecard submission pipeline works on: the nested submission payload, the
  flat effort records it is turned into, the verification requests sent to the project
  directory, and the two business errors.
 */
module Domain {
  import opened Dates

  /** One day's work as submitted: the date as text, the hours worked and a free note. */
  datatype EffortInput = EffortInput(date: string, workingHours: int, note: string)

  /** The work on one sub-project, at one location, billable or not. */
  datatype SubEntry = SubEntry(subProjectId: string, locationCode: string, billable: bool,
                               efforts: seq<EffortInput>)

  /** The work on one project. */
  datatype Entry = Entry(projectId: string, subEntries: seq<SubEntry>)

  /** One timecard submission of one employee. */
  datatype Submission = Submission(employeeId: string, entries: seq<Entry>)

  /** The status of a stored effort; this pipeline only ever produces `Submitted`. */
  datatype EffortStatus = Submitted

  /** The persisted effort record. */
  datatype Effort = Effort(employeeId: string, date: Date, workingHours: int,
                           locationCode: string, billable: bool, note: string,
                           subProjectId: string, projectId: string, status: EffortStatus)

  /**
    A verification group: a project id with the set of its sub-project ids. The directory
    answers with groups of the same shape for what it did not find.
   */
  datatype VerifyProjectExist = VerifyProjectExist(projectId: string, subProjectIds: set<string>)

  datatype ErrorKey = WrongWorkingHours | ProjectsOrSubprojectsNotExist

  /** Why a submission is refused: a business rule, or a date text the parser rejects. */
  datatype Failure = Business(key: ErrorKey) | DateParse(text: string)

  datatype Result<T> = Ok(value: T) | Err(failure: Failure)

  /** The accepted range of working hours, bounds included. */
  const MinWorkingHours: int := 4
  const MaxWorkingHours: int := 8

  predicate HoursInRange(h: int) {
    MinWorkingHours <= h <= MaxWorkingHours
  }
}
