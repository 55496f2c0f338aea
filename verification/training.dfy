/** The training client (`train.js`): the submission guard and request, the
    dispatch on the POST reply, one poll tick at a time, completion into the
    stored model descriptor, error classification, and the two URL rewrites.
    Replies arrive as JavaScript values; timers, the DOM and the network are
    replaced by the events a step receives. */
module Training {
  import opened Wrappers
  import opened Text
  import opened JsValue
  import TemplateStorage

  /** The endpoint used when nothing is configured. */
  const DefaultApiUrl: string := "http://localhost:9000/api/train"
  /** The floor advertised to the server in every request. */
  const MinTemplatesAdvertised: int := 10
  /** Below this many templates the user is asked to confirm. */
  const RecommendedMinimum: nat := 3
  /** The port of the old default endpoint, and the port it moved to. */
  const OldPort: string := ":8000"
  const NewPort: string := ":9000"

  // ---------------------------------------------------------------------------
  // Submission

  datatype TrainingConfig = TrainingConfig(epochs: int, batchSize: int, generateSynthetic: bool, minTemplates: int)

  /** The POST body: the template snapshot and the configuration. */
  datatype TrainingRequest = TrainingRequest(templates: seq<TemplateStorage.Template>, config: TrainingConfig)

  /** The outcome of the guard in `startTraining`. */
  datatype Submission = NoTemplates | Declined | Send(request: TrainingRequest)

  /** The guard and request of `startTraining`: no templates sends nothing;
      fewer than the recommended minimum sends only with the user's
      confirmation; a request always carries the whole snapshot and the fixed
      advertised floor. */
  function StartTraining(templates: seq<TemplateStorage.Template>, confirmed: bool,
                         epochs: int, batchSize: int, generateSamples: bool): (r: Submission)
    ensures r.NoTemplates? <==> |templates| == 0
    ensures r.Declined? <==> 0 < |templates| < RecommendedMinimum && !confirmed
    ensures r.Send? ==> r.request.templates == templates
    ensures r.Send? ==> r.request.config == TrainingConfig(epochs, batchSize, generateSamples, MinTemplatesAdvertised)
  {
    if |templates| == 0 then NoTemplates
    else if |templates| < RecommendedMinimum && !confirmed then Declined
    else Send(TrainingRequest(templates, TrainingConfig(epochs, batchSize, generateSamples, MinTemplatesAdvertised)))
  }

  /** A request goes out exactly when there are at least three templates, or
      at least one and the user confirmed. */
  lemma RequestSentIff(templates: seq<TemplateStorage.Template>, confirmed: bool,
                       epochs: int, batchSize: int, generateSamples: bool)
    ensures StartTraining(templates, confirmed, epochs, batchSize, generateSamples).Send?
        <==> |templates| >= 3 || (|templates| >= 1 && confirmed)
  {
  }

  /** `Math.round(loaded * 10 / total)` for a positive total: the integer
      nearest to a tenth-scaled fraction, halves rounded up. */
  function UploadPercent(loaded: int, total: int): (r: int)
    requires total > 0
    ensures 2 * total * r - total <= 20 * loaded < 2 * total * r + total
    ensures 0 <= loaded <= total ==> 0 <= r <= 10
  {
    var d := 2 * total;
    var r := (20 * loaded + total) / d;
    assert d * r <= 20 * loaded + total < d * r + d;
    assert 0 <= loaded <= total ==> 0 <= r <= 10 by {
      if 0 <= loaded <= total {
        if r > 10 {
          MulMonotone(d, 11, r);
        }
        if r < 0 {
          MulMonotone(d, r, -1);
        }
      }
    }
    r
  }

  lemma MulMonotone(d: int, x: int, y: int)
    requires d > 0 && x <= y
    ensures d * x <= d * y
  {
  }

  // ---------------------------------------------------------------------------
  // Errors

  /** A server reply with an error status. */
  datatype HttpResponse = HttpResponse(status: int, statusText: string, data: Value)

  /** What reaches an error handler: a request answered with an error status,
      a request that got no response, or any other thrown `Error` with its
      message. */
  datatype Exn =
    | ResponseError(response: HttpResponse)
    | RequestError
    | Thrown(message: Value)

  /** The message `handleTrainingError` shows: `ServerError(s, m)` is
      "Server error: s - m"; `CannotConnect` is the fixed cannot-connect text;
      `Message(m)` is the error's own message; `HandlerFault` is the handler
      itself throwing because the error response had no body to read
      `detail` from, so no message is set. */
  datatype ErrorReport =
    | ServerError(status: int, reason: Value)
    | CannotConnect
    | Message(text: Value)
    | HandlerFault

  /** The text of the `TypeError` raised by reading a property of `null` or
      `undefined`, in the V8 wording. */
  function TypeErrorText(e: TypeError): string {
    "Cannot read properties of " + (if e.base == Null then "null" else "undefined")
      + " (reading '" + e.key + "')"
  }

  function TypeErrorExn(e: TypeError): Exn {
    Thrown(Str(TypeErrorText(e)))
  }

  /** The message of `new Error(v)`: empty for `undefined`, otherwise `v`
      (its conversion to a string is not modelled). */
  function NewErrorMessage(v: Value): (m: Value)
    ensures v == Undefined ==> m == Str("")
    ensures v.Str? ==> m == v
  {
    if v == Undefined then Str("") else v
  }

  /** `handleTrainingError`: a response present gives a server error with the
      body's truthy `detail`, else the status text; otherwise a request
      present gives the cannot-connect message; otherwise the error's own
      message. */
  function ClassifyError(e: Exn): (r: ErrorReport)
    ensures e.ResponseError? && e.response.data != Null && e.response.data != Undefined ==>
      var detail := Get(e.response.data, "detail").value;
      r == ServerError(e.response.status, if Truthy(detail) then detail else Str(e.response.statusText))
    ensures e.ResponseError? && (e.response.data == Null || e.response.data == Undefined) ==> r == HandlerFault
    ensures e.RequestError? ==> r == CannotConnect
    ensures e.Thrown? ==> r == Message(e.message)
  {
    match e
    case ResponseError(resp) =>
      (match Get(resp.data, "detail")
       case Failure(_) => HandlerFault
       case Success(detail) => ServerError(resp.status, Or(detail, Str(resp.statusText))))
    case RequestError => CannotConnect
    case Thrown(message) => Message(message)
  }

  // ---------------------------------------------------------------------------
  // Job state

  /** The stored `ml_model_info`: a snapshot of one completed run. */
  datatype ModelDescriptor = ModelDescriptor(
    trainedAt: int, accuracy: Value, epochs: Value, templateCount: Value, trainingTime: Value)

  /** `Submitting` is the POST in flight; `Polling` carries the server's task id. */
  datatype Phase = Idle | Submitting | Polling(taskId: Value) | Completed | Failed(report: ErrorReport)

  /** The client's view of one job: its phase, the progress bar value, the
      server-reported log lines, and the stored model descriptor. */
  datatype Job = Job(phase: Phase, progress: Value, log: seq<Value>, modelInfo: Option<ModelDescriptor>)

  predicate Terminal(p: Phase) {
    p.Completed? || p.Failed?
  }

  /** The phase moves only forward: a new job starts from an idle or finished
      one, a submission is followed by polling or an outcome, and polling by
      an outcome. */
  predicate Advances(from: Phase, to: Phase) {
    || to == from
    || (to == Submitting && !from.Submitting? && !from.Polling?)
    || (from == Submitting && (to.Polling? || Terminal(to)))
    || (from.Polling? && Terminal(to))
  }

  /** The outcome of one request: a parsed body, or a rejection. */
  datatype Reply = Received(data: Value) | Rejected(error: Exn)

  datatype Event =
    | Submit(submission: Submission)
    | UploadProgress(loaded: int, total: int)
    | PostReply(reply: Reply, now: int)
    | PollReply(reply: Reply, now: int)

  /** The descriptor `handleTrainingComplete` stores for `result` at `now`;
      reading from a `null` or `undefined` result throws. */
  function Describe(result: Value, now: int): (r: Result<ModelDescriptor, TypeError>)
    ensures r.Failure? <==> result == Null || result == Undefined
    ensures r.Success? ==>
      && r.value.trainedAt == now
      && r.value.accuracy == Get(result, "accuracy").value
      && r.value.epochs == Get(result, "epochs").value
      && r.value.templateCount == Get(result, "template_count").value
      && r.value.trainingTime == Get(result, "training_time").value
  {
    match Get(result, "accuracy")
    case Failure(e) => Failure(e)
    case Success(accuracy) =>
      Success(ModelDescriptor(now, accuracy, Get(result, "epochs").value,
        Get(result, "template_count").value, Get(result, "training_time").value))
  }

  function Fail(job: Job, e: Exn): Job {
    job.(phase := Failed(ClassifyError(e)))
  }

  /** `handleTrainingComplete(result)`: progress 100 and the descriptor
      overwritten; a throw on the way is handled as an error. */
  function Complete(job: Job, result: Value, now: int): (r: Job)
    ensures Terminal(r.phase) && r.log == job.log
    ensures r.phase.Completed? <==> result != Null && result != Undefined
    ensures r.phase.Completed? ==> r.progress == Num(100.0) && r.modelInfo == Some(Describe(result, now).value)
    ensures r.phase.Failed? ==> r.progress == job.progress && r.modelInfo == job.modelInfo
  {
    match Describe(result, now)
    case Failure(e) => Fail(job, TypeErrorExn(e))
    case Success(d) => job.(phase := Completed, progress := Num(100.0), modelInfo := Some(d))
  }

  /** The continuation of `startTraining` once the POST settles. */
  function OnPostReply(job: Job, reply: Reply, now: int): (r: Job)
    ensures r.phase.Polling? || Terminal(r.phase)
    ensures r.phase.Polling? <==>
      reply.Received? && reply.data != Null && reply.data != Undefined && Truthy(Get(reply.data, "task_id").value)
    ensures reply.Rejected? ==> r == job.(phase := Failed(ClassifyError(reply.error)))
    ensures reply.Received? ==> r.progress == (if r.phase.Completed? then Num(100.0) else Num(20.0))
    ensures r.log == job.log
  {
    match reply
    case Rejected(e) => Fail(job, e)
    case Received(data) =>
      var uploaded := job.(progress := Num(20.0));
      match Get(data, "task_id")
      case Failure(e) => Fail(uploaded, TypeErrorExn(e))
      case Success(taskId) =>
        if Truthy(taskId) then uploaded.(phase := Polling(taskId))
        else Complete(uploaded, data, now)
  }

  /** One tick of `pollTrainingProgress` with the reply to its status request. */
  function OnPollReply(job: Job, reply: Reply, now: int): (r: Job)
    ensures r.phase == job.phase || Terminal(r.phase)
    ensures job.log <= r.log && |r.log| <= |job.log| + 1
    ensures r.modelInfo == job.modelInfo || r.phase == Completed
  {
    match reply
    case Rejected(e) => Fail(job, e)
    case Received(body) =>
      match Get(body, "status")
      case Failure(e) => Fail(job, TypeErrorExn(e))
      case Success(status) =>
        if status == Str("running") then
          var line := Get(body, "log").value;
          job.(progress := Or(Get(body, "progress").value, Num(50.0)),
               log := job.log + if Truthy(line) then [line] else [])
        else if status == Str("complete") then
          Complete(job, Get(body, "result").value, now)
        else if status == Str("error") then
          Fail(job, Thrown(NewErrorMessage(Get(body, "error").value)))
        else
          job
  }

  /** The client's reaction to one event. A submission starts a new job unless
      one is in flight; upload progress counts only while submitting and with
      a known total; the POST reply only while submitting; a poll reply only
      while polling. */
  function Step(job: Job, ev: Event): (r: Job)
    ensures Advances(job.phase, r.phase)
    ensures Terminal(job.phase) && !ev.Submit? ==> r == job
    ensures !ev.Submit? ==> job.log <= r.log && |r.log| <= |job.log| + 1
    ensures r.modelInfo == job.modelInfo || r.phase == Completed
  {
    match ev
    case Submit(submission) =>
      if job.phase.Submitting? || job.phase.Polling? || !submission.Send? then job
      else Job(Submitting, Num(10.0), [], job.modelInfo)
    case UploadProgress(loaded, total) =>
      if job.phase.Submitting? && total > 0 then job.(progress := Num(UploadPercent(loaded, total) as real))
      else job
    case PostReply(reply, now) =>
      if job.phase.Submitting? then OnPostReply(job, reply, now) else job
    case PollReply(reply, now) =>
      if job.phase.Polling? then OnPollReply(job, reply, now) else job
  }

  /** The job after a sequence of events. Without a new submission the log
      only grows, by at most one line per event. */
  function Run(job: Job, events: seq<Event>): (r: Job)
    ensures (forall i :: 0 <= i < |events| ==> !events[i].Submit?) ==>
              job.log <= r.log && |r.log| <= |job.log| + |events|
    decreases |events|
  {
    if events == [] then job else Run(Step(job, events[0]), events[1..])
  }

  // ---------------------------------------------------------------------------
  // Properties of the state machine

  /** A confirmed submission starts a job at 10% with an empty log; a refused
      one changes nothing. */
  lemma SubmitStartsJob(job: Job, submission: Submission)
    requires !job.phase.Submitting? && !job.phase.Polling?
    ensures var r := Step(job, Submit(submission));
      && (submission.Send? ==> r == Job(Submitting, Num(10.0), [], job.modelInfo))
      && (!submission.Send? ==> r == job)
  {
  }

  /** While submitting, upload progress of at most the total keeps the bar
      within 0..10 percent. */
  lemma UploadProgressBounded(job: Job, loaded: int, total: int)
    requires job.phase.Submitting? && 0 <= loaded <= total && 0 < total
    ensures var r := Step(job, UploadProgress(loaded, total));
      r.phase == Submitting && r.progress.Num? && 0.0 <= r.progress.n <= 10.0
  {
  }

  /** The POST reply: a truthy `task_id` starts polling at 20%; without one the
      whole reply body is taken as the result. */
  lemma PostReplyDispatch(job: Job, data: Value, now: int)
    requires job.phase.Submitting? && data != Null && data != Undefined
    ensures var taskId := Get(data, "task_id").value;
      var r := Step(job, PostReply(Received(data), now));
      && (Truthy(taskId) ==> r == job.(phase := Polling(taskId), progress := Num(20.0)))
      && (!Truthy(taskId) ==>
            && r.phase == Completed && r.progress == Num(100.0)
            && r.modelInfo == Some(ModelDescriptor(now,
                 Get(data, "accuracy").value, Get(data, "epochs").value,
                 Get(data, "template_count").value, Get(data, "training_time").value)))
  {
  }

  /** A rejected POST is handled by `handleTrainingError`: the job fails with
      the error's classification and nothing else changes. */
  lemma RejectedPost(job: Job, e: Exn, now: int)
    requires job.phase.Submitting?
    ensures Step(job, PostReply(Rejected(e), now)) == job.(phase := Failed(ClassifyError(e)))
  {
  }

  /** A POST whose body is `null` or `undefined` throws on reading `task_id`
      after the bar reached 20%; the throw is handled as an error. */
  lemma NullPostBody(job: Job, data: Value, now: int)
    requires job.phase.Submitting? && (data == Null || data == Undefined)
    ensures Step(job, PostReply(Received(data), now))
         == job.(phase := Failed(ClassifyError(TypeErrorExn(CannotReadProperty(data, "task_id")))),
                 progress := Num(20.0))
  {
  }

  /** After the POST reply the job polls or has ended; it polls exactly when a
      body arrived and carries a truthy `task_id`. */
  lemma PostReplyEndsSubmittingIff(job: Job, reply: Reply, now: int)
    requires job.phase.Submitting?
    ensures var r := Step(job, PostReply(reply, now));
      && (r.phase.Polling? || Terminal(r.phase))
      && (r.phase.Polling? <==>
            reply.Received? && reply.data != Null && reply.data != Undefined
            && Truthy(Get(reply.data, "task_id").value))
  {
  }

  /** The server's synchronous reply `{status: "complete", result}` carries no
      task id, so the envelope itself becomes the result: the stored
      descriptor has none of the run's metrics, whatever `result` holds. */
  lemma SyncEnvelopeLosesMetrics(job: Job, result: Value, now: int)
    requires job.phase.Submitting?
    ensures var data := Obj(map["status" := Str("complete"), "result" := result]);
      var r := Step(job, PostReply(Received(data), now));
      && r.phase == Completed
      && r.modelInfo == Some(ModelDescriptor(now, Undefined, Undefined, Undefined, Undefined))
  {
  }

  /** A `running` tick keeps polling; progress becomes the reported value, or
      50 when it is missing or zero; a log line is added only when present. */
  lemma RunningTick(job: Job, body: Value, now: int)
    requires job.phase.Polling? && body.Obj? && "status" in body.props && body.props["status"] == Str("running")
    ensures var progress := Get(body, "progress").value;
      var line := Get(body, "log").value;
      var r := Step(job, PollReply(Received(body), now));
      && r.phase == job.phase
      && r.modelInfo == job.modelInfo
      && (Truthy(progress) ==> r.progress == progress)
      && (!Truthy(progress) ==> r.progress == Num(50.0))
      && (Truthy(line) ==> r.log == job.log + [line])
      && (!Truthy(line) ==> r.log == job.log)
  {
  }

  /** A `complete` tick stops polling; with a result object it completes at
      100% and overwrites the descriptor from that result. */
  lemma CompleteTick(job: Job, body: Value, now: int)
    requires job.phase.Polling? && body.Obj? && "status" in body.props && body.props["status"] == Str("complete")
    ensures var result := Get(body, "result").value;
      var r := Step(job, PollReply(Received(body), now));
      && Terminal(r.phase)
      && (result != Null && result != Undefined ==>
            && r.phase == Completed && r.progress == Num(100.0)
            && r.modelInfo == Some(ModelDescriptor(now,
                 Get(result, "accuracy").value, Get(result, "epochs").value,
                 Get(result, "template_count").value, Get(result, "training_time").value)))
  {
  }

  /** An `error` tick stops polling and fails with the server's error message. */
  lemma ErrorTick(job: Job, body: Value, now: int)
    requires job.phase.Polling? && body.Obj? && "status" in body.props && body.props["status"] == Str("error")
    ensures Step(job, PollReply(Received(body), now))
         == job.(phase := Failed(Message(NewErrorMessage(Get(body, "error").value))))
  {
  }

  /** A failed status request stops polling and fails with its classification. */
  lemma RejectedTick(job: Job, e: Exn, now: int)
    requires job.phase.Polling?
    ensures Step(job, PollReply(Rejected(e), now)) == job.(phase := Failed(ClassifyError(e)))
  {
  }

  /** Any other status leaves the job exactly as it was, still polling. */
  lemma UnrecognisedTick(job: Job, body: Value, now: int)
    requires job.phase.Polling? && body != Null && body != Undefined
    requires Get(body, "status").value !in {Str("running"), Str("complete"), Str("error")}
    ensures Step(job, PollReply(Received(body), now)) == job
  {
  }

  /** A tick leaves the job polling exactly when the status is `running` or
      unrecognised; every other outcome ends the job. */
  lemma TickEndsPollingIff(job: Job, reply: Reply, now: int)
    requires job.phase.Polling?
    ensures var r := Step(job, PollReply(reply, now));
      && (r.phase.Polling? || Terminal(r.phase))
      && (r.phase.Polling? <==>
            && reply.Received? && reply.data != Null && reply.data != Undefined
            && Get(reply.data, "status").value != Str("complete")
            && Get(reply.data, "status").value != Str("error"))
  {
  }

  /** Once a job has completed or failed, no reply, tick or upload event
      changes it; only a new submission starts another job. */
  lemma {:induction false} TerminalIsFinal(job: Job, events: seq<Event>)
    requires Terminal(job.phase)
    requires forall i :: 0 <= i < |events| ==> !events[i].Submit?
    ensures Run(job, events) == job
    decreases |events|
  {
    if events != [] {
      assert Step(job, events[0]) == job;
      TerminalIsFinal(job, events[1..]);
    }
  }

  /** The three steps of `AsyncScenario`, one at a time. */
  lemma ScenarioSteps(modelInfo: Option<ModelDescriptor>, result: Value, t0: int, t1: int, t2: int)
    requires result == Obj(map["accuracy" := Num(0.9), "epochs" := Num(5.0),
                               "template_count" := Num(3.0), "training_time" := Str("12s")])
    ensures var j1 := Step(Job(Submitting, Num(10.0), [], modelInfo),
                           PostReply(Received(Obj(map["task_id" := Str("t1")])), t0));
      && j1 == Job(Polling(Str("t1")), Num(20.0), [], modelInfo)
      && var j2 := Step(j1, PollReply(Received(Obj(map["status" := Str("running"), "progress" := Num(40.0)])), t1));
      && j2 == Job(Polling(Str("t1")), Num(40.0), [], modelInfo)
      && Step(j2, PollReply(Received(Obj(map["status" := Str("complete"), "result" := result])), t2))
         == Job(Completed, Num(100.0), [], Some(ModelDescriptor(t2, Num(0.9), Num(5.0), Num(3.0), Str("12s"))))
  {
    assert "log" !in map["status" := Str("running"), "progress" := Num(40.0)];
  }

  /** Accepted asynchronously as task "t1", then one `running` tick at 40%,
      then `complete` with accuracy 0.9: the job completes at 100% with that
      accuracy stored, and a later tick is ignored. */
  lemma AsyncScenario(modelInfo: Option<ModelDescriptor>, t0: int, t1: int, t2: int, t3: int)
    ensures var result := Obj(map["accuracy" := Num(0.9), "epochs" := Num(5.0),
                                  "template_count" := Num(3.0), "training_time" := Str("12s")]);
      var events := [
        PostReply(Received(Obj(map["task_id" := Str("t1")])), t0),
        PollReply(Received(Obj(map["status" := Str("running"), "progress" := Num(40.0)])), t1),
        PollReply(Received(Obj(map["status" := Str("complete"), "result" := result])), t2),
        PollReply(Received(Obj(map["status" := Str("running")])), t3)];
      var r := Run(Job(Submitting, Num(10.0), [], modelInfo), events);
      && r.phase == Completed
      && r.progress == Num(100.0)
      && r.modelInfo == Some(ModelDescriptor(t2, Num(0.9), Num(5.0), Num(3.0), Str("12s")))
  {
    var result := Obj(map["accuracy" := Num(0.9), "epochs" := Num(5.0),
                          "template_count" := Num(3.0), "training_time" := Str("12s")]);
    var e0 := PostReply(Received(Obj(map["task_id" := Str("t1")])), t0);
    var e1 := PollReply(Received(Obj(map["status" := Str("running"), "progress" := Num(40.0)])), t1);
    var e2 := PollReply(Received(Obj(map["status" := Str("complete"), "result" := result])), t2);
    var e3 := PollReply(Received(Obj(map["status" := Str("running")])), t3);
    var j0 := Job(Submitting, Num(10.0), [], modelInfo);
    var j1 := Step(j0, e0);
    var j2 := Step(j1, e1);
    var j3 := Step(j2, e2);
    ScenarioSteps(modelInfo, result, t0, t1, t2);
    TerminalIsFinal(j3, [e3]);
    assert [e2, e3][1..] == [e3];
    assert Run(j2, [e2, e3]) == j3;
    assert [e1, e2, e3][1..] == [e2, e3];
    assert Run(j1, [e1, e2, e3]) == j3;
    assert [e0, e1, e2, e3][1..] == [e1, e2, e3];
    assert Run(j0, [e0, e1, e2, e3]) == j3;
  }

  // ---------------------------------------------------------------------------
  // URLs

  datatype LoadedConfig = LoadedConfig(url: string, persist: bool)

  /** `loadConfig`: with no saved (or an empty) URL the current one stays; a
      saved URL containing ":8000" has its first ":8000" turned into ":9000"
      and is written back; any other saved URL is used as it is. */
  function LoadConfig(saved: Option<string>, current: string): (r: LoadedConfig)
    ensures saved.None? || saved.value == "" ==> r == LoadedConfig(current, false)
    ensures saved.Some? && saved.value != "" ==> (r.persist <==> Contains(saved.value, OldPort))
    ensures saved.Some? && saved.value != "" && !r.persist ==> r.url == saved.value
    ensures r.persist ==> saved.Some? && |r.url| == |saved.value|
  {
    match saved
    case None => LoadedConfig(current, false)
    case Some(s) =>
      if s == "" then LoadedConfig(current, false)
      else if Contains(s, OldPort) then
        ReplaceFirstKeepsLength(s, OldPort, NewPort);
        LoadedConfig(ReplaceFirst(s, OldPort, NewPort), true)
      else LoadedConfig(s, false)
  }

  /** The migration rewrites exactly the first ":8000" of the saved URL. */
  lemma MigrationRewritesFirstOldPort(saved: string, current: string, i: nat)
    requires OccursAt(saved, OldPort, i) && forall j :: 0 <= j < i ==> !OccursAt(saved, OldPort, j)
    ensures var r := LoadConfig(Some(saved), current);
      r.persist && r.url == saved[..i] + NewPort + saved[i + |OldPort|..]
  {
    ContainsIffOccurs(saved, OldPort);
  }

  /** A saved URL without ":8000" is neither rewritten nor written back, so
      loading it again is stable. */
  lemma LoadConfigStable(saved: string, current: string)
    requires saved != "" && !Contains(saved, OldPort)
    ensures LoadConfig(Some(saved), current) == LoadedConfig(saved, false)
    ensures LoadConfig(Some(LoadConfig(Some(saved), current).url), current) == LoadedConfig(saved, false)
  {
  }

  /** The status endpoint: the first "/train" of the API URL becomes
      "/train/status/<taskId>". */
  function StatusUrl(apiUrl: string, taskId: string): (r: string)
    ensures forall i :: OccursAt(apiUrl, "/train", i) && (forall j :: 0 <= j < i ==> !OccursAt(apiUrl, "/train", j))
              ==> r == apiUrl[..i] + "/train/status/" + taskId + apiUrl[i + 6..]
    ensures (forall j :: !OccursAt(apiUrl, "/train", j)) ==> r == apiUrl
  {
    ReplaceFirst(apiUrl, "/train", "/train/status/" + taskId)
  }

  /** On the default endpoint, the status URL of a task is the endpoint
      followed by "/status/<taskId>". */
  lemma StatusUrlOfDefault(taskId: string)
    ensures StatusUrl(DefaultApiUrl, taskId) == DefaultApiUrl + "/status/" + taskId
  {
    var u := DefaultApiUrl;
    assert OccursAt(u, "/train", 25);
    forall j | 0 <= j < 25
      ensures !OccursAt(u, "/train", j)
    {
      assert u[j..j + 6][0] == u[j] && u[j..j + 6][1] == u[j + 1];
      assert u[j] != '/' || u[j + 1] != 't';
    }
    assert u[..25] + "/train/status/" + taskId + u[31..] == u + "/status/" + taskId;
  }

  /** The endpoint saved under the old default port loads as the current
      default and is written back. */
  lemma MigratesOldDefault(u: string, current: string)
    requires u == "http://localhost:8000/api/train"
    ensures LoadConfig(Some(u), current) == LoadedConfig(DefaultApiUrl, true)
  {
    assert OccursAt(u, OldPort, 16);
    forall j | 0 <= j < 16
      ensures !OccursAt(u, OldPort, j)
    {
      assert u[j..j + 5][0] == u[j] && u[j..j + 5][1] == u[j + 1];
      assert u[j] != ':' || u[j + 1] != '8';
    }
    MigrationRewritesFirstOldPort(u, current, 16);
    OldDefaultSplices(u);
  }

  lemma OldDefaultSplices(u: string)
    requires u == "http://localhost:8000/api/train"
    ensures u[..16] + NewPort + u[21..] == DefaultApiUrl
  {
    assert u[..16] == "http://localhost" && u[21..] == "/api/train";
  }
}
