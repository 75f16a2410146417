/**
  The controller tests' scenarios, restated as lemmas and methods about the model: one employee, one entry for
  "projectId", one sub-entry for "subprojectID" in "CN", billable, and one effort on
  2022-01-01 with a note.
 */
module Scenarios {
  import opened Wrappers
  import opened Dates
  import opened Domain
  import opened Flatten
  import opened Aggregation
  import opened Service

  function TestSubmission(hours: int): Submission
  {
    Submission("employeeId",
      [Entry("projectId",
        [SubEntry("subprojectID", "CN", true, [EffortInput("2022-01-01", hours, "note")])])])
  }

  function TestEffort(hours: int): Effort
  {
    Effort("employeeId", Date(2022, 1, 1), hours, "CN", true, "note", "subprojectID", "projectId", Submitted)
  }

  function TestSlot(hours: int): Slot
  {
    Slot("projectId", "subprojectID", "CN", true, EffortInput("2022-01-01", hours, "note"))
  }

  /** The test submission's traversal visits its one effort input. */
  lemma TestSubmissionSlots(hours: int)
    ensures Slots(TestSubmission(hours)) == [TestSlot(hours)]
  {
    var s := TestSubmission(hours);
    var e := s.entries[0];
    assert SubEntrySlots("projectId", e.subEntries[0]) == [TestSlot(hours)];
    assert e.subEntries[..0] == [] && s.entries[..0] == [];
    assert SubEntriesSlots("projectId", e.subEntries) == [] + [TestSlot(hours)] == [TestSlot(hours)];
    assert EntriesSlots(s.entries) == [] + [TestSlot(hours)] == [TestSlot(hours)];
  }

  /** The test's date text is the first of January 2022. */
  lemma TestDateParses()
    ensures ParseDate("2022-01-01") == Some(Date(2022, 1, 1))
  {
    ParseFormat(Date(2022, 1, 1));
    assert Format(Date(2022, 1, 1)) == "2022-01-01";
  }

  /** The test submission flattens to its one record, or fails on its hours. */
  lemma TestSubmissionFlattened(hours: int)
    ensures HoursInRange(hours) ==> Flattened(TestSubmission(hours)) == Ok([TestEffort(hours)])
    ensures !HoursInRange(hours) ==> Flattened(TestSubmission(hours)) == Err(Business(WrongWorkingHours))
  {
    var slot := TestSlot(hours);
    TestSubmissionSlots(hours);
    TestDateParses();
    assert [slot][..0] == [];
    assert BuildAll("employeeId", []) == Ok([]);
    if HoursInRange(hours) {
      assert BuildEffort("employeeId", slot) == Ok(TestEffort(hours));
      assert [] + [TestEffort(hours)] == [TestEffort(hours)];
    }
  }

  /** An accepted submission stores one `Submitted` record. */
  method SubmitAccepted() returns (outcome: Outcome, stored: seq<Effort>)
    ensures outcome == Saved
    ensures stored == [TestEffort(8)]
  {
    var repository := new EffortRepository();
    var proxy := new ProjectServiceProxy([]);
    var service := new TimecardService(repository, proxy);
    TestSubmissionFlattened(8);
    ghost var requests;
    outcome, requests := service.Save(TestSubmission(8));
    stored := repository.records;
  }

  /** A directory that reports a missing project makes the submission fail and stores nothing. */
  method SubmitUnknownProject() returns (outcome: Outcome, stored: seq<Effort>, ghost verifyCalls: nat)
    ensures outcome == Rejected(Business(ProjectsOrSubprojectsNotExist))
    ensures stored == [] && verifyCalls == 1
  {
    var repository := new EffortRepository();
    var proxy := new ProjectServiceProxy([VerifyProjectExist("some not exist project ids", {})]);
    var service := new TimecardService(repository, proxy);
    TestSubmissionFlattened(8);
    ghost var requests;
    outcome, requests := service.Save(TestSubmission(8));
    stored := repository.records;
    verifyCalls := |proxy.calls|;
  }

  /** Three hours are refused before the directory is asked anything. */
  method SubmitThreeHours() returns (outcome: Outcome, stored: seq<Effort>, ghost verifyCalls: nat)
    ensures outcome == Rejected(Business(WrongWorkingHours))
    ensures stored == [] && verifyCalls == 0
  {
    var repository := new EffortRepository();
    var proxy := new ProjectServiceProxy([]);
    var service := new TimecardService(repository, proxy);
    TestSubmissionFlattened(3);
    ghost var requests;
    outcome, requests := service.Save(TestSubmission(3));
    stored := repository.records;
    verifyCalls := |proxy.calls|;
  }

  /** Submitting the same timecard twice stores its record twice: nothing is deduplicated. */
  method SubmitTwice() returns (stored: seq<Effort>)
    ensures stored == [TestEffort(8), TestEffort(8)]
  {
    var repository := new EffortRepository();
    var proxy := new ProjectServiceProxy([]);
    var service := new TimecardService(repository, proxy);
    TestSubmissionFlattened(8);
    var outcome;
    ghost var requests;
    outcome, requests := service.Save(TestSubmission(8));
    outcome, requests := service.Save(TestSubmission(8));
    stored := repository.records;
  }
}
