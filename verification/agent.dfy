/** The tools of `src/agent.py` the conversational agent calls:
    `solicitar_ferias`, `cancelar_ferias` and `consultar_dias_uteis`, with
    every side effect (directory, response sheet, today's date, calendar,
    POST status) passed in as an `Environment`. */
module Agent {
  import opened Wrappers
  import opened Text
  import opened Seqs
  import opened BusinessDays
  import opened Directory
  import opened Solicitations
  import opened Forms

  /** The contract type every tool sends. */
  const ServiceContract := "Prestador de Serviços"

  /** The justification the cancel tool uses when the caller gives none
      (the default argument of `cancelar_ferias`). */
  const DefaultJustification := "O usuário não justificou o cancelamento"

  /** What the tools read from outside: the "Colaboradores" table, the
      response sheet, today's date, the holiday calendar, the status the
      form endpoint answers with, and how a date is written in a message. */
  datatype Environment = Environment(
    directory: seq<Employee>,
    log: seq<FormRow>,
    today: Day,
    isWorkingDay: Day -> bool,
    postStatus: int,
    showDay: Day -> string)

  /** A tool's return value (`None` when the Python function falls off its
      end) and the form body it POSTed, if any. */
  datatype ToolOutcome = ToolOutcome(reply: Option<string>, posted: Option<Payload>)

  /** An exception escaping a tool: one raised by `send_forms`, or the
      `KeyError` of reading a key the response does not have. */
  datatype ToolError = FormFailed(error: FormError) | MissingResponseKey(key: string)

  function RequestReply(showDay: Day -> string, start: Day, back: Day, days: nat): string
  {
    "Solicitação de férias enviada com sucesso! Período: " + showDay(start) + " a " + showDay(back)
    + " (" + NatToString(days) + " dias úteis)."
  }

  function CancellationReply(showDay: Day -> string, o: Original): string
  {
    "Cancelamento de férias enviado com sucesso! "
    + "Período cancelado: " + showDay(o.start) + " a " + showDay(o.back) + ", "
    + "Totalizando " + NatToString(o.businessDays) + " dias úteis."
  }

  function BusinessDaysReply(showDay: Day -> string, first: Day, last: Day, days: nat): string
  {
    "Entre " + showDay(first) + " e " + showDay(last) + " há " + NatToString(days) + " dias úteis."
  }

  lemma RequestLabelIsRequestAction()
    ensures Normalize(RequestLabel) == RequestAction
  {
    assert Lower(RequestLabel) == RequestAction;
    assert [] + RequestAction + [] == RequestAction;
    StripCharacterization([], RequestAction, []);
  }

  lemma CancellationLabelIsCancellationAction()
    ensures Normalize(CancellationLabel) == CancellationAction
  {
    assert Lower(CancellationLabel) == CancellationAction;
    assert [] + CancellationAction + [] == CancellationAction;
    StripCharacterization([], CancellationAction, []);
  }

  function RequestInput(email: string, org: OrgData, start: Day, back: Day, days: nat, notes: string): FormInput
  {
    FormInput(email, org.leader, org.tribe, org.area, ServiceContract, RequestLabel,
              Some(start), Some(back), Some(days), Some(notes), None, None, None, None)
  }

  function CancellationInput(email: string, org: OrgData, justification: Option<string>): FormInput
  {
    FormInput(email, org.leader, org.tribe, org.area, ServiceContract, CancellationLabel,
              None, None, None, None, None, None, None, justification)
  }

  /** `solicitar_ferias`: a failed lookup returns its message and sends
      nothing; otherwise the request is POSTed with the business-day count
      of the period, and the reply confirms it whatever the POST answered. */
  function RequestVacation(env: Environment, start: Day, back: Day, email: string, notes: string): (out: ToolOutcome)
    ensures LookupEmployee(env.directory, email).NotFound? ==>
      out == ToolOutcome(Some(LookupEmployee(env.directory, email).message), None)
    ensures LookupEmployee(env.directory, email).Found? ==>
      var days := |WorkingDaysIn(env.isWorkingDay, start, back)|;
      && out.reply == Some(RequestReply(env.showDay, start, back, days))
      && out.posted.Some?
      && var p := out.posted.value;
      && p.email == email
      && p.leader == LookupEmployee(env.directory, email).data.leader
      && p.tribe == LookupEmployee(env.directory, email).data.tribe
      && p.area == LookupEmployee(env.directory, email).data.area
      && p.action == RequestLabel
      && p.contract == ServiceContract
      && p.details == RequestDetails(Some(start), Some(back), Some(days), notes)
  {
    match LookupEmployee(env.directory, email)
    case NotFound(message) => ToolOutcome(Some(message), None)
    case Found(org) =>
      var days := CountBusinessDays(env.isWorkingDay, start, back);
      CountIsWorkingDaySetSize(env.isWorkingDay, start, back);
      RequestLabelIsRequestAction();
      var response := SendForms(RequestInput(email, org, start, back, days, notes),
                                env.log, env.today, env.isWorkingDay, env.postStatus);
      ToolOutcome(Some(RequestReply(env.showDay, start, back, days)), response.value.posted)
  }

  /** `cancelar_ferias`: a failed lookup returns its message and sends
      nothing; otherwise the dispatch decides, and its status selects the
      reply: 200 echoes the cancelled period, 202 passes the text through,
      anything else returns nothing. */
  function CancelVacation(env: Environment, email: string, justification: Option<string>)
    : (r: Result<ToolOutcome, ToolError>)
    ensures LookupEmployee(env.directory, email).NotFound? ==>
      r == Success(ToolOutcome(Some(LookupEmployee(env.directory, email).message), None))
    ensures r.Success? && r.value.posted.Some? ==>
      && LookupEmployee(env.directory, email).Found?
      && var p := r.value.posted.value;
      && p.email == email
      && p.leader == LookupEmployee(env.directory, email).data.leader
      && p.tribe == LookupEmployee(env.directory, email).data.tribe
      && p.area == LookupEmployee(env.directory, email).data.area
      && p.contract == ServiceContract
      && p.action == CancellationLabel
      && p.details.CancellationDetails?
      && p.details.justification == OrEmpty(justification)
    ensures r.Failure? ==> r.error.FormFailed? && r.error.error != UnsupportedAction
  {
    match LookupEmployee(env.directory, email)
    case NotFound(message) => Success(ToolOutcome(Some(message), None))
    case Found(org) =>
      CancellationLabelIsCancellationAction();
      match SendForms(CancellationInput(email, org, justification), env.log, env.today, env.isWorkingDay, env.postStatus)
      case Failure(e) => Failure(FormFailed(e))
      case Success(response) =>
        if response.status == 200 then
          match response.original
          case Some(o) => Success(ToolOutcome(Some(CancellationReply(env.showDay, o)), response.posted))
          case None => Failure(MissingResponseKey("data_saida_original"))
        else if response.status == 202 then
          Success(ToolOutcome(Some(response.text), response.posted))
        else
          Success(ToolOutcome(None, response.posted))
  }

  /** `consultar_dias_uteis`: the sentence carries both dates and the number
      of working days between them, inclusive. */
  function ConsultBusinessDays(isWorkingDay: Day -> bool, showDay: Day -> string, first: Day, last: Day): (reply: string)
    ensures reply == BusinessDaysReply(showDay, first, last, |WorkingDaysIn(isWorkingDay, first, last)|)
  {
    CountIsWorkingDaySetSize(isWorkingDay, first, last);
    BusinessDaysReply(showDay, first, last, CountBusinessDays(isWorkingDay, first, last))
  }

  // ---------------------------------------------------------------------
  // Cancellation outcomes, in terms of the log

  /** Nothing open: the fixed "nothing to cancel" text, no POST, whatever
      status the endpoint would have answered. */
  lemma CancelWithNothingOpen(env: Environment, email: string, justification: Option<string>)
    requires LookupEmployee(env.directory, email).Found?
    requires forall x :: LoggedRequest(env.log, email, env.today, x) ==> LoggedClosing(env.log, email, env.today, x)
    ensures CancelVacation(env, email, justification) == Success(ToolOutcome(Some(NothingToCancel), None))
  {
    var org := LookupEmployee(env.directory, email).data;
    CancellationLabelIsCancellationAction();
    CancellationWithNothingOpen(CancellationInput(email, org, justification), env.log, env.today, env.isWorkingDay, env.postStatus);
  }

  /** Two distinct open requests: the tool raises and nothing is POSTed. */
  lemma CancelWithSeveralOpen(env: Environment, email: string, justification: Option<string>, x: Entry, y: Entry)
    requires LookupEmployee(env.directory, email).Found?
    requires x != y
    requires LoggedRequest(env.log, email, env.today, x) && !LoggedClosing(env.log, email, env.today, x)
    requires LoggedRequest(env.log, email, env.today, y) && !LoggedClosing(env.log, email, env.today, y)
    ensures CancelVacation(env, email, justification) == Failure(FormFailed(AmbiguousOpenRequests))
  {
    var org := LookupEmployee(env.directory, email).data;
    CancellationLabelIsCancellationAction();
    CancellationWithSeveralOpen(CancellationInput(email, org, justification), env.log, env.today, env.isWorkingDay, env.postStatus, x, y);
  }

  /** Exactly one open request with both dates: one POST, and the reply
      depends on the status only — 200 echoes the period and its business
      days, 202 the dispatch text, anything else nothing. */
  lemma CancelWithOneOpen(env: Environment, email: string, justification: Option<string>)
    requires LookupEmployee(env.directory, email).Found?
    ensures var open := LoadOpenedSolicitations(env.log, email, env.today);
      |open| == 1 && open[0].start.Some? && open[0].back.Some? ==>
      var x := open[0];
      var o := Original(x.start.value, x.back.value, |WorkingDaysIn(env.isWorkingDay, x.start.value, x.back.value)|);
      var r := CancelVacation(env, email, justification);
      && r.Success? && r.value.posted.Some?
      && r.value.posted.value.details.CancellationDetails?
      && r.value.posted.value.details.previousStart == x.start
      && r.value.posted.value.details.previousReturn == x.back
      && r.value.posted.value.details.previousBusinessDays == Some(o.businessDays)
      && (env.postStatus == 200 ==> r.value.reply == Some(CancellationReply(env.showDay, o)))
      && (env.postStatus == 202 ==> r.value.reply == Some(CancellationDone))
      && (env.postStatus != 200 && env.postStatus != 202 ==> r.value.reply.None?)
  {
    var open := LoadOpenedSolicitations(env.log, email, env.today);
    if |open| == 1 && open[0].start.Some? && open[0].back.Some? {
      var org := LookupEmployee(env.directory, email).data;
      var x := open[0];
      var input := CancellationInput(email, org, justification);
      var days := CountBusinessDays(env.isWorkingDay, x.start.value, x.back.value);
      CancellationLabelIsCancellationAction();
      CancellationWithOneOpen(input, env.log, env.today, env.isWorkingDay, env.postStatus);
      CountIsWorkingDaySetSize(env.isWorkingDay, x.start.value, x.back.value);
      var response := SendForms(input, env.log, env.today, env.isWorkingDay, env.postStatus);
      assert response == Success(Response(env.postStatus, CancellationDone, Some(Original(x.start.value, x.back.value, days)),
                                          Some(PayloadOf(input, CancellationDetailsOf(input, x.start, x.back, Some(days))))));
    }
  }

  /** Called without a justification, the cancel tool sends its default
      text, never an empty one. */
  lemma DefaultJustificationIsSent(env: Environment, email: string)
    ensures var r := CancelVacation(env, email, Some(DefaultJustification));
      r.Success? && r.value.posted.Some? ==> r.value.posted.value.details.justification == DefaultJustification
  {
  }

  /** The `KeyError` branch of `cancelar_ferias` is unreachable: a status of
      200 always comes with the original dates. */
  lemma CancelNeverMissesResponseKey(env: Environment, email: string, justification: Option<string>)
    ensures var r := CancelVacation(env, email, justification);
      !(r.Failure? && r.error.MissingResponseKey?)
  {
    if LookupEmployee(env.directory, email).Found? {
      CancellationLabelIsCancellationAction();
    }
  }

  /** The log is searched with the e-mail exactly as typed, while the
      directory lookup normalises it: a query the directory accepts but that
      matches no logged e-mail verbatim finds nothing to cancel. */
  lemma CancelMatchesLoggedEmailVerbatim(env: Environment, email: string, justification: Option<string>)
    requires LookupEmployee(env.directory, email).Found?
    requires forall r :: r in env.log ==> r.email != email
    ensures CancelVacation(env, email, justification) == Success(ToolOutcome(Some(NothingToCancel), None))
  {
    CancelWithNothingOpen(env, email, justification);
  }

  // ---------------------------------------------------------------------
  // End-to-end scenarios

  /** A request logged by the form and then cancelled: the cancellation
      echoes the same dates and the same business-day count the request
      sent. */
  lemma SubmitThenCancelEchoesRequest(env: Environment, email: string, notes: string, justification: Option<string>,
                                      row: FormRow)
    requires LookupEmployee(env.directory, email).Found?
    requires env.log == [row]
    requires Relevant(row, email, env.today) && IsRequestRow(row)
    requires row.leaveStart.Some? && row.leaveReturn.Some?
    requires env.postStatus == 200
    ensures var start := row.leaveStart.value;
      var back := row.leaveReturn.value;
      var sent := RequestVacation(env, start, back, email, notes).posted.value.details.businessDays.value;
      var r := CancelVacation(env, email, justification);
      r.Success? && r.value.reply == Some(CancellationReply(env.showDay, Original(start, back, sent)))
  {
    SingleRequestIsOpen(row, email, env.today);
    CancelWithOneOpen(env, email, justification);
  }

  /** Two logged requests that no cancellation closed make the cancel tool
      raise instead of picking one. */
  lemma TwoRequestsMakeCancelAmbiguous(env: Environment, email: string, justification: Option<string>,
                                      first: FormRow, second: FormRow)
    requires LookupEmployee(env.directory, email).Found?
    requires env.log == [first, second]
    requires Relevant(first, email, env.today) && IsRequestRow(first)
    requires Relevant(second, email, env.today) && IsRequestRow(second)
    requires RequestEntry(first) != RequestEntry(second)
    ensures CancelVacation(env, email, justification) == Failure(FormFailed(AmbiguousOpenRequests))
  {
    assert !IsCancellationRow(first) && !IsCancellationRow(second);
    assert LoggedRequest(env.log, email, env.today, RequestEntry(first));
    assert LoggedRequest(env.log, email, env.today, RequestEntry(second));
    CancelWithSeveralOpen(env, email, justification, RequestEntry(first), RequestEntry(second));
  }
}
