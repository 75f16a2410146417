# Timecard submission pipeline

A Dafny model of `TimecardService.save`, the service that accepts one employee's timecard
submission. A submission holds entries (one per project). Each entry holds sub-entries (one per
sub-project, with a location code and a billable flag). Each sub-entry holds effort inputs (a date
text, working hours and a note). `save` runs four steps in sequence:

1. **Flatten and validate.** It walks entries, then sub-entries, then effort inputs, and builds one
   `Effort` record per input. Each record inherits the employee id, the project id, the
   sub-project id, the location code and the billable flag, and gets status `Submitted`. While a
   record is built, its hours must lie in [4, 8], bounds included. Otherwise the whole submission
   fails with `WRONG_WORKING_HOURS`. Its date text is then parsed as an ISO 8601 calendar date
   in extended format (YYYY-MM-DD), and the date must exist in the calendar. A text that does
   not parse fails the submission with a generic parse error.
2. **Group.** The flat list is folded into a map from project id to the set of its sub-project
   ids. A repeated project id has its set merged in, never replaced.
3. **Verify.** Every map entry becomes one verification request. The project directory is asked
   once, with all requests. A non-empty answer fails the submission with
   `PROJECTS_OR_SUBPROJECTS_NOT_EXIST`.
4. **Commit.** Otherwise the store's `saveAll` is called once with the whole flat list.

Modules:

- `Wrappers` — `Option`.
- `Dates` — the strict ISO local-date parser `ParseDate` and its inverse `Format`, with both round
  trips proved.
- `Domain` — the submission, the `Effort` record, the verification request, the error kinds and
  the hour bounds.
- `Flatten` — step 1.
  - `Slots` is the traversal alone: every input with its inherited fields, in order.
  - `BuildAll` turns the slots into records, or into the failure of the first slot that fails.
  - `FlattenSubmission` (with `FlattenEntry` and `MapEfforts`) is the nested loop of the source,
    proved equal to `Flattened = BuildAll ∘ Slots`.
- `Aggregation` — steps 2 and 3.
  - `Grouped` is the fold; `GroupByProject` is the map-update loop proved equal to it.
  - `ToRequests` turns the map into requests.
  - `GroupedExact` and `RequestsCoverEfforts` state that no (project, sub-project) pair is lost
    and none is invented.
- `Service` — the service class and its two collaborators.
  - `ProjectServiceProxy` answers with whatever its `reply` field holds.
  - `EffortRepository` appends what it is given.
  - Both record the calls they receive in ghost logs. `TimecardService` keeps a ghost trace of the
    calls it makes, in order.
- `Scenarios` — the controller test's submissions (accepted, unknown project, three hours) and a
  resubmission that stores duplicates.

The code checks an input's hours before parsing its date, and stops at the first input that
fails either check. So a failed submission raises `WRONG_WORKING_HOURS` exactly when the first
input that fails a check has hours out of range, and otherwise the parse error of that input's
date text (`BuildAllErr`, `FlattenedFailure`). `WrongHoursRejected` states the case where every
date text parses.

## Model

| member | source | states |
|---|---|---|
| `Dates.DaysInMonth` | src/main/java/timecard/mgmt/service/TimecardService.java:48 | a month has 28 to 31 days, and 29 exactly for February of a Gregorian leap year |
| `Dates.ParseDate` | src/main/java/timecard/mgmt/service/TimecardService.java:48 | a parsed date always exists in the calendar and comes from text of the exact shape YYYY-MM-DD |
| `Dates.ParseFormat` | src/main/java/timecard/mgmt/service/TimecardService.java:48 | parsing the printed form of any valid date gives that date back |
| `Dates.FormatParse` | src/main/java/timecard/mgmt/service/TimecardService.java:48 | every text the parser accepts is the printed form of the date it yields, so the parser accepts one text per date |
| `Flatten.BuildEffort` | src/main/java/timecard/mgmt/service/TimecardService.java:43-52 | one record is built exactly when the hours are in [4, 8] and the date parses; the failure is WRONG_WORKING_HOURS exactly when the hours are out of range, otherwise the parse error |
| `Flatten.BuildAllOk` | src/main/java/timecard/mgmt/service/TimecardService.java:39-57 | all records are built exactly when every input passes both checks; then there is one record per input, at the input's own index |
| `Flatten.BuildAllErr` | src/main/java/timecard/mgmt/service/TimecardService.java:44-48 | a failure is always the failure that building the first input that fails a check raises |
| `Flatten.BuildAllErrPrefix` | src/main/java/timecard/mgmt/service/TimecardService.java:44-46 | once a prefix of the inputs has failed, nothing after it changes the outcome |
| `Flatten.BuildAllAppend` | src/main/java/timecard/mgmt/service/TimecardService.java:40-56 | building a concatenation gives the first part's failure, else the second's, else the two record lists joined |
| `Flatten.SlotAt` | src/main/java/timecard/mgmt/service/TimecardService.java:36-51 | input k of sub-entry j of entry i sits at its position of the traversal, with its entry's project id and its sub-entry's sub-project id, location code and billable flag |
| `Flatten.PositionOrder` | src/main/java/timecard/mgmt/service/TimecardService.java:36-41 | positions follow entry order, then sub-entry order, then input order, so no two inputs share a position |
| `Flatten.SlotsCover` | src/main/java/timecard/mgmt/service/TimecardService.java:36-41 | every position of the traversal belongs to some input, so nothing else is in it |
| `Flatten.FlattenedOkIff` | src/main/java/timecard/mgmt/service/TimecardService.java:44-48 | flattening succeeds exactly when every input has hours in [4, 8] (4 and 8 accepted) and a parseable date |
| `Flatten.FlattenedEffortAt` | src/main/java/timecard/mgmt/service/TimecardService.java:47-51 | on success, the record at an input's position carries the employee id, the entry's project id, the sub-entry's fields, the input's parsed date, hours and note, and status Submitted |
| `Flatten.FlattenedCount` | src/main/java/timecard/mgmt/service/TimecardService.java:35-57 | on success the number of records is the number of effort inputs, counted independently |
| `Flatten.FlattenedFailure` | src/main/java/timecard/mgmt/service/TimecardService.java:44-48 | a failed submission raises WRONG_WORKING_HOURS exactly when the first input that fails a check has hours out of range, and otherwise the parse error of that input's date text |
| `Flatten.WrongHoursRejected` | src/main/java/timecard/mgmt/service/TimecardService.java:44-46 | an input with hours below 4 or above 8 makes flattening fail, with WRONG_WORKING_HOURS when every date text parses |
| `Flatten.MapEfforts` | src/main/java/timecard/mgmt/service/TimecardService.java:41-53 | the stream over one sub-entry's inputs returns its records or the first failure, as `BuildAll` specifies |
| `Flatten.FlattenEntry` | src/main/java/timecard/mgmt/service/TimecardService.java:38-54 | the loop over one entry's sub-entries returns the entry's records in order or the first failure |
| `Flatten.FlattenSubmission` | src/main/java/timecard/mgmt/service/TimecardService.java:35-57 | the nested loop returns exactly `Flattened(s)`, the records in traversal order or the first failure |
| `Aggregation.MergeUnions` | src/main/java/timecard/mgmt/service/TimecardService.java:62-67 | a merge adds its key, unions into the set a repeated key already holds instead of replacing it, and leaves other keys alone |
| `Aggregation.GroupedExact` | src/main/java/timecard/mgmt/service/TimecardService.java:60-68 | the map's keys are the project ids of the records; the set under a key holds every sub-project id booked on that project and nothing else |
| `Aggregation.GroupByProject` | src/main/java/timecard/mgmt/service/TimecardService.java:60-68 | the map-update loop returns exactly the fold `Grouped` |
| `Aggregation.ToRequests` | src/main/java/timecard/mgmt/service/TimecardService.java:71-74 | one request per map key, no project id twice, each with the key's whole sub-project set, as many requests as keys |
| `Aggregation.RequestsCoverEfforts` | src/main/java/timecard/mgmt/service/TimecardService.java:60-74 | every record's (project, sub-project) pair is carried by the request for its project, and every pair a request carries comes from some record |
| `Service.ProjectServiceProxy.VerifyData` | src/main/java/timecard/mgmt/service/TimecardService.java:76 | answers with the directory's reply and logs the request list it received |
| `Service.EffortRepository.SaveAll` | src/main/java/timecard/mgmt/service/TimecardService.java:82 | appends the given records to the store and logs the call |
| `Service.TimecardService.Save` | src/main/java/timecard/mgmt/service/TimecardService.java:34-83 | a flatten failure is returned with neither collaborator called; otherwise the directory is called exactly once with exact requests; a non-empty answer gives PROJECTS_OR_SUBPROJECTS_NOT_EXIST with the store untouched; an empty answer gives one saveAll of exactly the flat list, after the directory call |
| `Scenarios.TestSubmissionFlattened` | src/test/java/timecard/mgmt/controller/TimecardControllerTest.java:73-95 | the test submission flattens to its one record when the hours are in range, and fails with WRONG_WORKING_HOURS otherwise |
| `Scenarios.SubmitAccepted` | src/test/java/timecard/mgmt/controller/TimecardControllerTest.java:37-56 | with an empty directory answer, the 8-hour submission is saved as one Submitted record with the submitted fields |
| `Scenarios.SubmitUnknownProject` | src/test/java/timecard/mgmt/controller/TimecardControllerTest.java:58-71 | with a directory answer naming a missing project, the submission fails with PROJECTS_OR_SUBPROJECTS_NOT_EXIST after one directory call and stores nothing |
| `Scenarios.SubmitThreeHours` | src/main/java/timecard/mgmt/service/TimecardService.java:44-46 | the same submission with 3 hours fails with WRONG_WORKING_HOURS, stores nothing and never calls the directory |
| `Scenarios.SubmitTwice` | src/main/java/timecard/mgmt/service/TimecardService.java:82 | saving the same submission twice stores its record twice: nothing is deduplicated |

## Left out

- HTTP routing, and the mapping of the business exception to a 422 response with an `error` field: web plumbing outside the service. `save`'s exceptions are the `Rejected` outcome.
- Persistence internals (the repository implementation, JPA, generated record ids): the store is an append-only sequence with a call log.
- The internal logic of the remote project directory: it is not part of this model. Its answer is the arbitrary `reply` field, and a remote failure or timeout is not modelled.
- Failures of the store itself: `SaveAll` always succeeds.
- ParseDate: years outside 0000–9999 are not accepted. The Java parser accepts them when they are written with a sign (`-0001-01-01`, `+10000-01-01`).
- Null fields in the submission, and the NullPointerException they would raise: every field is a value here.
- The order of the verification requests: it follows hash-map iteration and is unspecified. `ToRequests` picks keys in no fixed order and promises nothing about the order.
- `oldValue.addAll(newValue)` mutates the existing set in place. The model unions set values instead. Each set starts as a fresh single-element set, so no aliasing is lost.
- Working hours are an unbounded integer: the width of the Java getter's type is not modelled, and only its comparison with 4 and 8 matters.
