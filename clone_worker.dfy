/** cloud-functions/clone-program/src/index.ts: the HTTP handler of the clone
    worker. A POST carries a Pub/Sub message whose `data` is a base64 JSON
    job; the handler validates it, runs the matching cloner, and on failure
    marks the shell program `failed`. A GET is the health check. Decoding
    (base64 and `JSON.parse`) is the parameter `decode`. */
module CloneWorker {
  import opened Wrappers
  import opened Cloning

  datatype ProgramData = ProgramData(weeks: Option<seq<WeekData>>)

  /** The decoded JSON job, any field of which may be absent. */
  datatype Payload = Payload(
    programId: Option<string>,
    userId: Option<string>,
    programData: Option<ProgramData>,
    programType: Option<string>)

  /** `req.body.message`, whose `data` may be absent. */
  datatype Message = Message(data: Option<string>)

  datatype Request = Get | Post(message: Option<Message>)

  datatype Response = Response(status: int, body: string)

  /** A string field that is present and not empty. */
  predicate Truthy(s: Option<string>) {
    s.Some? && s.value != ""
  }

  const MissingMessage := "Bad Request: missing message"
  const InvalidPayload := "Bad Request: invalid message payload"
  const MissingFields := "Bad Request: missing required job fields"
  const Failed := "failed"
  const JobError := "Error processing clone job"

  /** The four job fields the handler requires to be truthy. */
  predicate FieldsPresent(p: Payload) {
    Truthy(p.programId) && Truthy(p.userId) && p.programData.Some? && Truthy(p.programType)
  }

  datatype Decision = Reject(reason: string) | Accept(job: Job)

  /** The three checks before a job runs, in the handler's order. */
  function Validate(message: Option<Message>, decode: string -> Option<Payload>): (d: Decision)
    ensures d == Reject(MissingMessage) <==> message.None? || !Truthy(message.value.data)
    ensures d == Reject(InvalidPayload) <==>
      message.Some? && Truthy(message.value.data) && decode(message.value.data.value).None?
    ensures d.Accept? <==>
      && message.Some? && Truthy(message.value.data) && decode(message.value.data.value).Some?
      && FieldsPresent(decode(message.value.data.value).value)
    ensures d.Accept? ==>
      var p := decode(message.value.data.value).value;
      d.job == Job(p.programId.value, p.userId.value, p.programData.value.weeks, p.programType.value)
      && d.job.programId != "" && d.job.userId != "" && d.job.programType != ""
  {
    if message.None? || !Truthy(message.value.data) then Reject(MissingMessage)
    else match decode(message.value.data.value)
      case None => Reject(InvalidPayload)
      case Some(p) =>
        if !FieldsPresent(p) then Reject(MissingFields)
        else Accept(Job(p.programId.value, p.userId.value, p.programData.value.weeks, p.programType.value))
  }

  predicate IsCardio(job: Job) {
    job.programType == "cardio"
  }

  /** The best-effort `failed` write: it lands only when the row exists. */
  function MarkFailed<W>(present: bool, id: string): seq<Event<W>> {
    if present then [StatusSet(id, Failed)] else []
  }

  /** What one request does: the response, and the writes to the strength
      and to the cardio tables. The rows that exist in each program table
      are `strengthRows` and `cardioRows`. */
  datatype Handled = Handled(
    response: Response,
    strengthEvents: seq<Event<WeekRow>>,
    cardioEvents: seq<Event<CardioWeekRow>>)

  function Handle(request: Request, decode: string -> Option<Payload>, strengthRows: set<string>,
                  cardioRows: set<string>, fault: Option<nat>): Handled
  {
    match request
    case Get => Handled(Response(200, "OK"), [], [])
    case Post(message) =>
      match Validate(message, decode)
      case Reject(reason) => Handled(Response(400, reason), [], [])
      case Accept(job) =>
        if IsCardio(job) then
          var present := job.programId in cardioRows;
          var r := CardioRun(present, job, fault);
          if r.ok then Handled(Response(200, "OK"), [], r.events)
          else Handled(Response(500, JobError), [], r.events + MarkFailed(present, job.programId))
        else
          var present := job.programId in strengthRows;
          var r := StrengthRun(present, job, fault);
          if r.ok then Handled(Response(200, "OK"), r.events, [])
          else Handled(Response(500, JobError), r.events + MarkFailed(present, job.programId), [])
  }

  /** The POST and GET handlers over the two program stores. */
  method HandleRequest(strength: ProgramStore<WeekRow>, cardio: ProgramStore<CardioWeekRow>, request: Request,
                       decode: string -> Option<Payload>, fault: Option<nat>) returns (response: Response)
    modifies strength, cardio
    ensures var h := Handle(request, decode, old(strength.copyStatus).Keys, old(cardio.copyStatus).Keys, fault);
      && response == h.response
      && Reflects(strength, old(strength.journal), old(strength.weeks), old(strength.copyStatus), h.strengthEvents)
      && Reflects(cardio, old(cardio.journal), old(cardio.weeks), old(cardio.copyStatus), h.cardioEvents)
  {
    if request.Get? {
      return Response(200, "OK");
    }
    var decision := Validate(request.message, decode);
    if decision.Reject? {
      return Response(400, decision.reason);
    }
    var job := decision.job;
    if IsCardio(job) {
      HandleCardio(request.message, decode, strength.copyStatus.Keys, cardio.copyStatus.Keys, fault);
      response := RunCardioJob(cardio, job, fault);
    } else {
      HandleStrength(request.message, decode, strength.copyStatus.Keys, cardio.copyStatus.Keys, fault);
      response := RunStrengthJob(strength, job, fault);
    }
  }

  /** A valid cardio job writes only the cardio tables. */
  lemma HandleCardio(message: Option<Message>, decode: string -> Option<Payload>, strengthRows: set<string>,
                     cardioRows: set<string>, fault: Option<nat>)
    requires Validate(message, decode).Accept? && IsCardio(Validate(message, decode).job)
    ensures var job := Validate(message, decode).job;
      var present := job.programId in cardioRows;
      var r := CardioRun(present, job, fault);
      Handle(Post(message), decode, strengthRows, cardioRows, fault)
        == Handled(if r.ok then Response(200, "OK") else Response(500, JobError), [],
                   if r.ok then r.events else r.events + MarkFailed(present, job.programId))
  {
  }

  /** A valid job of any other type writes only the strength tables. */
  lemma HandleStrength(message: Option<Message>, decode: string -> Option<Payload>, strengthRows: set<string>,
                       cardioRows: set<string>, fault: Option<nat>)
    requires Validate(message, decode).Accept? && !IsCardio(Validate(message, decode).job)
    ensures var job := Validate(message, decode).job;
      var present := job.programId in strengthRows;
      var r := StrengthRun(present, job, fault);
      Handle(Post(message), decode, strengthRows, cardioRows, fault)
        == Handled(if r.ok then Response(200, "OK") else Response(500, JobError),
                   if r.ok then r.events else r.events + MarkFailed(present, job.programId), [])
  {
  }

  /** A valid cardio job: its cloner, then on failure the `failed` mark. */
  method RunCardioJob(cardio: ProgramStore<CardioWeekRow>, job: Job, fault: Option<nat>) returns (response: Response)
    modifies cardio
    ensures var present := job.programId in old(cardio.copyStatus);
      var r := CardioRun(present, job, fault);
      && response == (if r.ok then Response(200, "OK") else Response(500, JobError))
      && Reflects(cardio, old(cardio.journal), old(cardio.weeks), old(cardio.copyStatus),
                  if r.ok then r.events else r.events + MarkFailed(present, job.programId))
  {
    ghost var present := job.programId in cardio.copyStatus;
    ghost var j0, w0, s0 := cardio.journal, cardio.weeks, cardio.copyStatus;
    var ok := CloneCardioProgramData(cardio, job, fault);
    if ok {
      return Response(200, "OK");
    }
    ghost var events := CardioRun(present, job, fault).events;
    var marked := Write(cardio, j0, w0, s0, events, StatusSet(job.programId, Failed), false);
    return Response(500, JobError);
  }

  /** Any other valid job: the strength cloner, then on failure the
      `failed` mark. */
  method RunStrengthJob(strength: ProgramStore<WeekRow>, job: Job, fault: Option<nat>) returns (response: Response)
    modifies strength
    ensures var present := job.programId in old(strength.copyStatus);
      var r := StrengthRun(present, job, fault);
      && response == (if r.ok then Response(200, "OK") else Response(500, JobError))
      && Reflects(strength, old(strength.journal), old(strength.weeks), old(strength.copyStatus),
                  if r.ok then r.events else r.events + MarkFailed(present, job.programId))
  {
    ghost var present := job.programId in strength.copyStatus;
    ghost var j0, w0, s0 := strength.journal, strength.weeks, strength.copyStatus;
    var ok := CloneStrengthProgramData(strength, job, fault);
    if ok {
      return Response(200, "OK");
    }
    ghost var events := StrengthRun(present, job, fault).events;
    var marked := Write(strength, j0, w0, s0, events, StatusSet(job.programId, Failed), false);
    return Response(500, JobError);
  }

  // ----------------------------------------------------------- properties

  /** The health check answers 200 whatever the stores hold, and writes
      nothing. */
  lemma GetIsHealthy(decode: string -> Option<Payload>, strengthRows: set<string>, cardioRows: set<string>, fault: Option<nat>)
    ensures Handle(Get, decode, strengthRows, cardioRows, fault) == Handled(Response(200, "OK"), [], [])
  {
  }

  /** A request is answered 400 exactly when validation rejects it, and then
      no cloner runs and nothing is written. */
  lemma BadRequest(request: Request, decode: string -> Option<Payload>, strengthRows: set<string>,
                   cardioRows: set<string>, fault: Option<nat>)
    ensures var h := Handle(request, decode, strengthRows, cardioRows, fault);
      (h.response.status == 400 <==> request.Post? && Validate(request.message, decode).Reject?)
      && (h.response.status == 400 ==> h.strengthEvents == [] && h.cardioEvents == [])
  {
  }

  /** A "cardio" job writes only to the cardio tables and any other type
      only to the strength tables, in each case exactly what the matching
      cloner writes, then possibly the `failed` mark. */
  lemma Dispatch(message: Option<Message>, decode: string -> Option<Payload>, strengthRows: set<string>,
                 cardioRows: set<string>, fault: Option<nat>)
    requires Validate(message, decode).Accept?
    ensures var job := Validate(message, decode).job;
      var h := Handle(Post(message), decode, strengthRows, cardioRows, fault);
      if IsCardio(job) then
        && h.strengthEvents == []
        && CardioRun(job.programId in cardioRows, job, fault).events <= h.cardioEvents
      else
        && h.cardioEvents == []
        && StrengthRun(job.programId in strengthRows, job, fault).events <= h.strengthEvents
  {
  }

  /** The answer is 200 "OK" exactly on a health check or when the cloner
      returns normally; a failed clone is answered 500. */
  lemma Outcome(message: Option<Message>, decode: string -> Option<Payload>, strengthRows: set<string>,
                cardioRows: set<string>, fault: Option<nat>)
    requires Validate(message, decode).Accept?
    ensures var job := Validate(message, decode).job;
      var ok := if IsCardio(job) then CardioRun(job.programId in cardioRows, job, fault).ok
                else StrengthRun(job.programId in strengthRows, job, fault).ok;
      Handle(Post(message), decode, strengthRows, cardioRows, fault).response
        == if ok then Response(200, "OK") else Response(500, JobError)
  {
  }

  /** After a failed clone of an existing shell program its last status is
      `failed`, so the run's heartbeat does not stay visible; when the row
      is missing the mark writes nothing and the answer is still 500. */
  lemma FailureMarksRow(message: Option<Message>, decode: string -> Option<Payload>, strengthRows: set<string>,
                        cardioRows: set<string>, fault: Option<nat>)
    requires Validate(message, decode).Accept?
    ensures var job := Validate(message, decode).job;
      var h := Handle(Post(message), decode, strengthRows, cardioRows, fault);
      h.response.status == 500 ==>
        if IsCardio(job) then
          (job.programId in cardioRows ==> LastStatus(h.cardioEvents, job.programId) == Some(Failed))
          && (job.programId !in cardioRows ==> h.cardioEvents == [])
        else
          (job.programId in strengthRows ==> LastStatus(h.strengthEvents, job.programId) == Some(Failed))
          && (job.programId !in strengthRows ==> h.strengthEvents == [])
  {
    var job := Validate(message, decode).job;
    if IsCardio(job) {
      LastStatusSnoc(CardioRun(true, job, fault).events, job.programId, Failed);
    } else {
      LastStatusSnoc(StrengthRun(true, job, fault).events, job.programId, Failed);
    }
  }
}
