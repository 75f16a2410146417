/**
  `TimecardService.save` and its two collaborators. The project directory and the effort
  store are objects outside the service: each records the calls it receives in a ghost log,
  the directory answers with whatever its `reply` field holds, and the store appends what it
  is given. The service keeps a ghost trace of the calls it makes, in order.
 */
module Service {
  import opened Domain
  import opened Flatten
  import opened Aggregation

  /**
    The remote project directory. `reply` stands for whatever the directory answers: the
    verification groups it did not find, empty when everything exists.
   */
  class ProjectServiceProxy {
    var reply: seq<VerifyProjectExist>
    ghost var calls: seq<seq<VerifyProjectExist>>

    constructor (reply: seq<VerifyProjectExist>)
      ensures this.reply == reply && calls == []
    {
      this.reply := reply;
      calls := [];
    }

    method VerifyData(requests: seq<VerifyProjectExist>) returns (notExist: seq<VerifyProjectExist>)
      modifies this`calls
      ensures notExist == reply
      ensures calls == old(calls) + [requests]
    {
      notExist := reply;
      calls := calls + [requests];
    }
  }

  /** The effort store: an append-only collection of records. */
  class EffortRepository {
    var records: seq<Effort>
    ghost var calls: seq<seq<Effort>>

    constructor ()
      ensures records == [] && calls == []
    {
      records := [];
      calls := [];
    }

    method SaveAll(efforts: seq<Effort>)
      modifies this
      ensures records == old(records) + efforts
      ensures calls == old(calls) + [efforts]
    {
      records := records + efforts;
      calls := calls + [efforts];
    }
  }

  /** A call the service makes to one of its collaborators. */
  datatype Call = VerifyDataCall(requests: seq<VerifyProjectExist>) | SaveAllCall(efforts: seq<Effort>)

  /** How `save` ends: normally, or with the failure it raises. */
  datatype Outcome = Saved | Rejected(failure: Failure)

  class TimecardService {
    const effortRepository: EffortRepository
    const projectService: ProjectServiceProxy
    ghost var trace: seq<Call>

    constructor (effortRepository: EffortRepository, projectService: ProjectServiceProxy)
      ensures this.effortRepository == effortRepository && this.projectService == projectService
      ensures trace == []
    {
      this.effortRepository := effortRepository;
      this.projectService := projectService;
      trace := [];
    }

    /**
      Flattens and checks the submission, groups its project and sub-project ids, asks the
      directory once about all groups, and stores all records at once when nothing is missing.
      Any failure before the directory call leaves both collaborators untouched; a non-empty
      answer leaves the store untouched.
     */
    method Save(submission: Submission) returns (outcome: Outcome, ghost requests: seq<VerifyProjectExist>)
      modifies this`trace, projectService`calls, effortRepository
      ensures var flat := Flattened(submission);
        flat.Err? ==>
          && outcome == Rejected(flat.failure)
          && trace == old(trace)
          && projectService.calls == old(projectService.calls)
          && effortRepository.calls == old(effortRepository.calls)
          && effortRepository.records == old(effortRepository.records)
      ensures var flat := Flattened(submission);
        flat.Ok? ==>
          && RequestsFor(requests, Grouped(flat.value))
          && projectService.calls == old(projectService.calls) + [requests]
      ensures var flat := Flattened(submission);
        flat.Ok? && projectService.reply != [] ==>
          && outcome == Rejected(Business(ProjectsOrSubprojectsNotExist))
          && trace == old(trace) + [VerifyDataCall(requests)]
          && effortRepository.calls == old(effortRepository.calls)
          && effortRepository.records == old(effortRepository.records)
      ensures var flat := Flattened(submission);
        flat.Ok? && projectService.reply == [] ==>
          && outcome == Saved
          && trace == old(trace) + [VerifyDataCall(requests), SaveAllCall(flat.value)]
          && effortRepository.calls == old(effortRepository.calls) + [flat.value]
          && effortRepository.records == old(effortRepository.records) + flat.value
    {
      requests := [];
      var list := FlattenSubmission(submission);
      if list.Err? {
        return Rejected(list.failure), requests;
      }
      var grouped := GroupByProject(list.value);
      var toBeVerified := ToRequests(grouped);
      requests := toBeVerified;
      var notExist := projectService.VerifyData(toBeVerified);
      trace := trace + [VerifyDataCall(toBeVerified)];
      if notExist != [] {
        return Rejected(Business(ProjectsOrSubprojectsNotExist)), requests;
      }
      effortRepository.SaveAll(list.value);
      trace := trace + [SaveAllCall(list.value)];
      outcome := Saved;
    }
  }
}
