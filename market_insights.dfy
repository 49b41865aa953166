/**
 * The market insights page (`market-insights/page.tsx`): a three-field form whose
 * analysis lists recommended jobs, a preparation dialog opened on a job, and a
 * project guide requested from that dialog.
 */
module MarketInsights {
  import opened Wrappers
  import Text

  datatype Job = Job(title: string, company: string)

  /** A market analysis; `errorText` is the body's `error` field, empty when absent. */
  datatype Analysis = Analysis(
    errorText: string, hiringProbability: string, readinessScore: int, summary: string,
    missingSkills: seq<string>, recommendedJobs: seq<Job>)

  datatype Challenge = Challenge(title: string, description: string)

  datatype Prep = Prep(
    matchSummary: string, interviewQuestions: seq<string>,
    projectChallenge: Option<Challenge>, resumeKeywords: seq<string>)

  datatype Guide = Guide(techStack: seq<string>, steps: seq<string>, bonusChallenge: string)

  datatype Request =
    | InsightsRequest(targetRole: string, skills: seq<string>, location: string)
    | JobPrepRequest(jobTitle: string, company: string, skills: seq<string>)
    | ProjectRequest(title: string, description: string)

  const FieldsRequired: string := "All fields are required."
  const FetchFailed: string := "Failed to fetch insights"
  const AnalysisFallback: string := "Something went wrong within the AI analysis."

  /**
   * The error `handleAnalyze` shows for a reply, empty when the analysis is shown:
   * an `error` in the body is thrown as the message, a failed status has its fixed
   * text, and an exception shows its message or the fallback.
   */
  function AnalyzeError(reply: Reply<Analysis>): (text: string)
    ensures reply.Ok? ==> text == reply.body.errorText
    ensures !reply.Ok? ==> text != []
    ensures reply.NotOk? ==> text == FetchFailed
  {
    if reply.Ok? then reply.body.errorText
    else FailureText(reply, FetchFailed, AnalysisFallback)
  }

  class MarketInsightsPage {
    var targetRole: string
    var skills: string
    var location: string
    var loading: bool
    var data: Option<Analysis>
    var error: string
    var selectedJob: Option<Job>
    var prepData: Option<Prep>
    var prepLoading: bool
    var projectGuide: Option<Guide>
    var projectLoading: bool

    /**
     * While an analysis is pending there is neither a result nor an error; while
     * preparation data is pending there is neither preparation data nor a guide.
     */
    ghost predicate Valid()
      reads this
    {
      && (loading ==> data == None && error == "")
      && (prepLoading ==> prepData == None && projectGuide == None)
    }

    constructor ()
      ensures Valid()
      ensures targetRole == "" && skills == "" && location == "" && !loading
      ensures data == None && error == "" && selectedJob == None
      ensures prepData == None && !prepLoading && projectGuide == None && !projectLoading
    {
      targetRole := "";
      skills := "";
      location := "";
      loading := false;
      data := None;
      error := "";
      selectedJob := None;
      prepData := None;
      prepLoading := false;
      projectGuide := None;
      projectLoading := false;
    }

    method SetTargetRole(text: string)
      requires Valid()
      modifies this`targetRole
      ensures Valid()
      ensures targetRole == text
    {
      targetRole := text;
    }

    method SetSkills(text: string)
      requires Valid()
      modifies this`skills
      ensures Valid()
      ensures skills == text
    {
      skills := text;
    }

    method SetLocation(text: string)
      requires Valid()
      modifies this`location
      ensures Valid()
      ensures location == text
    {
      location := text;
    }

    /**
     * `handleAnalyze` up to its `await`, from the Analyze button (disabled while
     * loading): an empty field only sets the error; otherwise the old result and
     * error are cleared and the skills are sent as their comma-separated items.
     */
    method Analyze() returns (request: Option<Request>)
      requires Valid() && !loading
      modifies this`loading, this`error, this`data
      ensures Valid()
      ensures (targetRole == "" || skills == "" || location == "") ==>
        && request == None && !loading && error == FieldsRequired && data == old(data)
      ensures targetRole != "" && skills != "" && location != "" ==>
        && request == Some(InsightsRequest(targetRole, Text.Items(skills), location))
        && loading && error == "" && data == None
    {
      if targetRole == "" || skills == "" || location == "" {
        error := FieldsRequired;
        return None;
      }
      loading := true;
      error := "";
      data := None;
      request := Some(InsightsRequest(targetRole, Text.Items(skills), location));
    }

    /** The rest of `handleAnalyze`: the page ends showing either the analysis or an error. */
    method CompleteAnalyze(reply: Reply<Analysis>)
      requires Valid() && loading
      modifies this`loading, this`error, this`data
      ensures Valid() && !loading
      ensures error == AnalyzeError(reply)
      ensures data.Some? <==> error == []
      ensures data.Some? ==> reply.Ok? && data == Some(reply.body)
    {
      var text := AnalyzeError(reply);
      if text == [] {
        data := Some(reply.body);
      } else {
        error := text;
      }
      loading := false;
    }

    /**
     * `handleJobClick` up to its `await`, from a card of the shown analysis: opens
     * the dialog on the job with the preparation data and guide cleared, and asks
     * for preparation data with the skills as typed now.
     */
    method JobClick(job: Job) returns (request: Request)
      requires Valid()
      requires data.Some? && job in data.value.recommendedJobs
      requires selectedJob == None && !prepLoading && !projectLoading
      modifies this`selectedJob, this`prepLoading, this`prepData, this`projectGuide
      ensures Valid()
      ensures selectedJob == Some(job) && prepLoading && prepData == None && projectGuide == None
      ensures request == JobPrepRequest(job.title, job.company, Text.Items(skills))
    {
      var typed := skills;
      request := JobPrepRequest(job.title, job.company, Text.Items(typed));
      selectedJob := Some(job);
      prepLoading := true;
      prepData := None;
      projectGuide := None;
      assert skills == typed;
    }

    /** The rest of `handleJobClick`: a failure is only logged, leaving no preparation data. */
    method CompletePrep(reply: Reply<Prep>)
      requires Valid() && prepLoading
      modifies this`prepLoading, this`prepData
      ensures Valid() && !prepLoading
      ensures prepData == if reply.Ok? then Some(reply.body) else None
    {
      if reply.Ok? {
        prepData := Some(reply.body);
      }
      prepLoading := false;
    }

    /**
     * `handleStartProject` up to its `await`, from the dialog's button (disabled
     * while a guide is loading): without a project challenge nothing happens.
     */
    method StartProject() returns (request: Option<Request>)
      requires Valid() && !projectLoading
      modifies this`projectLoading
      ensures Valid()
      ensures (prepData == None || prepData.value.projectChallenge == None) ==> request == None && !projectLoading
      ensures prepData.Some? && prepData.value.projectChallenge.Some? ==>
        && projectLoading
        && request == Some(ProjectRequest(prepData.value.projectChallenge.value.title,
                                          prepData.value.projectChallenge.value.description))
    {
      if prepData == None || prepData.value.projectChallenge == None {
        return None;
      }
      var challenge := prepData.value.projectChallenge.value;
      projectLoading := true;
      request := Some(ProjectRequest(challenge.title, challenge.description));
    }

    /**
     * The rest of `handleStartProject`. The status is not checked, so any parsed
     * body becomes the guide; `None` is a failed fetch or an unparsable body.
     */
    method CompleteProject(body: Option<Guide>)
      requires Valid() && projectLoading && !prepLoading
      modifies this`projectLoading, this`projectGuide
      ensures Valid() && !projectLoading
      ensures projectGuide == if body.Some? then body else old(projectGuide)
    {
      if body.Some? {
        projectGuide := body;
      }
      projectLoading := false;
    }

    /** Closing the dialog forgets the selected job only. */
    method CloseDialog()
      requires Valid()
      modifies this`selectedJob
      ensures Valid()
      ensures selectedJob == None
    {
      selectedJob := None;
    }
  }
}
