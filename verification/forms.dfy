/** The form dispatch of `src/register.py`: `send_forms`, which decides
    whether and what to POST to the vacation form, and `enviar_formulario`,
    the earlier payload builder. The POST itself is an effect: its status is
    a parameter and the payload it would carry is part of the result. */
module Forms {
  import opened Wrappers
  import opened Text
  import opened BusinessDays
  import opened Seqs
  import opened Solicitations

  /** The two actions after `lower()` (and `strip()` in `send_forms`). */
  const RequestAction := "solicitação"
  const CancellationAction := "cancelamento"

  const RequestDone := "Solicitação de férias realizada com sucesso."
  const CancellationDone := "Solicitação de cancelamento de férias realizada com sucesso."
  const NothingToCancel := "Não há férias para serem canceladas."

  /** The keyword arguments shared by `send_forms` and `enviar_formulario`
      (the URL aside). */
  datatype FormInput = FormInput(
    email: string,
    leader: string,
    tribe: string,
    area: string,
    contract: string,
    action: string,
    leaveStart: Cell,
    leaveReturn: Cell,
    businessDays: Option<int>,
    notes: Option<string>,
    previousStart: Cell,
    previousReturn: Cell,
    previousBusinessDays: Option<int>,
    justification: Option<string>)

  /** The action-specific keys added to the JSON body. */
  datatype Details =
    | NoDetails
    | RequestDetails(leaveStart: Cell, leaveReturn: Cell, businessDays: Option<int>, notes: string)
    | CancellationDetails(
        previousStart: Cell, previousReturn: Cell, previousBusinessDays: Option<int>, justification: string,
        leaveStart: Cell, leaveReturn: Cell, businessDays: Option<int>, notes: string)

  /** The JSON body of the POST. */
  datatype Payload = Payload(
    email: string, leader: string, tribe: string, area: string, contract: string, action: string,
    details: Details)

  /** The dates and day count of the request being cancelled. */
  datatype Original = Original(start: Day, back: Day, businessDays: nat)

  /** The dictionary `send_forms` returns; `posted` is the body it POSTed, if any. */
  datatype Response = Response(status: int, text: string, original: Option<Original>, posted: Option<Payload>)

  /** The exceptions `send_forms` raises. `MissingDate` stands for the
      `ValueError` the business-day count raises when the open request has
      an empty date cell. */
  datatype FormError = AmbiguousOpenRequests | UnsupportedAction | MissingDate

  function RequestDetailsOf(input: FormInput): Details
  {
    RequestDetails(input.leaveStart, input.leaveReturn, input.businessDays, OrEmpty(input.notes))
  }

  function CancellationDetailsOf(input: FormInput, previousStart: Cell, previousReturn: Cell, previousBusinessDays: Option<int>): Details
  {
    CancellationDetails(previousStart, previousReturn, previousBusinessDays, OrEmpty(input.justification),
                        input.leaveStart, input.leaveReturn, input.businessDays, OrEmpty(input.notes))
  }

  function PayloadOf(input: FormInput, details: Details): Payload
  {
    Payload(input.email, input.leader, input.tribe, input.area, input.contract, input.action, details)
  }

  /** `enviar_formulario`: the body it POSTs, whatever the action; the action
      is only lower-cased, not stripped. */
  function FormPayload(input: FormInput): Payload
  {
    var action := Lower(input.action);
    PayloadOf(input,
      if action == RequestAction then RequestDetailsOf(input)
      else if action == CancellationAction then
        CancellationDetailsOf(input, input.previousStart, input.previousReturn, input.previousBusinessDays)
      else NoDetails)
  }

  /** `send_forms`, with the response sheet, today's date, the calendar and
      the status the POST would answer as parameters. */
  function SendForms(input: FormInput, log: seq<FormRow>, today: Day, isWorkingDay: Day -> bool, postStatus: int)
    : (r: Result<Response, FormError>)
    ensures Normalize(input.action) == RequestAction ==> r.Success? && r.value.posted.Some?
    ensures r.Success? && r.value.posted.Some? ==> r.value.status == postStatus
    ensures r.Success? && r.value.posted.None? ==> r.value.status == 202 && r.value.text == NothingToCancel
    ensures r.Success? ==>
      (r.value.original.Some? <==> r.value.posted.Some? && Normalize(input.action) == CancellationAction)
    ensures r.Success? && r.value.posted.Some? ==>
      var p := r.value.posted.value;
      p.email == input.email && p.leader == input.leader && p.tribe == input.tribe
      && p.area == input.area && p.contract == input.contract && p.action == input.action
  {
    var action := Normalize(input.action);
    if action == RequestAction then
      Success(Response(postStatus, RequestDone, None, Some(PayloadOf(input, RequestDetailsOf(input)))))
    else if action == CancellationAction then
      var open := LoadOpenedSolicitations(log, input.email, today);
      if |open| == 1 then
        match (open[0].start, open[0].back)
        case (Some(start), Some(back)) =>
          var days := CountBusinessDays(isWorkingDay, start, back);
          var details := CancellationDetailsOf(input, Some(start), Some(back), Some(days));
          Success(Response(postStatus, CancellationDone, Some(Original(start, back, days)), Some(PayloadOf(input, details))))
        case _ => Failure(MissingDate)
      else if |open| == 0 then
        Success(Response(202, NothingToCancel, None, None))
      else
        Failure(AmbiguousOpenRequests)
    else
      Failure(UnsupportedAction)
  }

  /** Whether `send_forms` POSTs anything. */
  predicate Posts(r: Result<Response, FormError>)
  {
    r.Success? && r.value.posted.Some?
  }

  /** An action that lower-cases to one of the two supported ones has no
      surrounding whitespace, so `send_forms` and `enviar_formulario` agree
      on it. */
  lemma ActionNeedsNoStrip(action: string)
    requires Lower(action) == RequestAction || Lower(action) == CancellationAction
    ensures Normalize(action) == Lower(action)
  {
    var l := Lower(action);
    assert Trimmed(l);
    assert [] + l + [] == l;
    StripCharacterization([], l, []);
  }

  // ---------------------------------------------------------------------
  // The branches of send_forms

  /** A request is always POSTed; when the action needs no stripping the
      body is exactly the one `enviar_formulario` builds. */
  lemma RequestPostsFormPayload(input: FormInput, log: seq<FormRow>, today: Day, isWorkingDay: Day -> bool, postStatus: int)
    requires Lower(input.action) == RequestAction
    ensures var r := SendForms(input, log, today, isWorkingDay, postStatus);
      r == Success(Response(postStatus, RequestDone, None, Some(FormPayload(input))))
  {
    ActionNeedsNoStrip(input.action);
  }

  /** Nothing open to cancel: status 202, the fixed text, and no POST. */
  lemma CancellationWithNothingOpen(input: FormInput, log: seq<FormRow>, today: Day, isWorkingDay: Day -> bool, postStatus: int)
    requires Normalize(input.action) == CancellationAction
    requires forall x :: LoggedRequest(log, input.email, today, x) ==> LoggedClosing(log, input.email, today, x)
    ensures SendForms(input, log, today, isWorkingDay, postStatus) == Success(Response(202, NothingToCancel, None, None))
  {
    var open := LoadOpenedSolicitations(log, input.email, today);
    if |open| > 0 {
      OpenIffNotClosed(log, input.email, today, open[0]);
    }
  }

  /** Two distinct open requests: the cancellation is refused and nothing is
      POSTed. */
  lemma CancellationWithSeveralOpen(input: FormInput, log: seq<FormRow>, today: Day, isWorkingDay: Day -> bool, postStatus: int, x: Entry, y: Entry)
    requires Normalize(input.action) == CancellationAction
    requires x != y
    requires LoggedRequest(log, input.email, today, x) && !LoggedClosing(log, input.email, today, x)
    requires LoggedRequest(log, input.email, today, y) && !LoggedClosing(log, input.email, today, y)
    ensures SendForms(input, log, today, isWorkingDay, postStatus) == Failure(AmbiguousOpenRequests)
  {
    var open := LoadOpenedSolicitations(log, input.email, today);
    OpenIffNotClosed(log, input.email, today, x);
    OpenIffNotClosed(log, input.email, today, y);
    TwoDistinctMembers(open, x, y);
  }

  /** Exactly one open request: one POST whose original dates are that
      request's and whose original count is the business days between them;
      that request is one of the log that no cancellation has closed. */
  lemma CancellationWithOneOpen(input: FormInput, log: seq<FormRow>, today: Day, isWorkingDay: Day -> bool, postStatus: int)
    requires Normalize(input.action) == CancellationAction
    ensures |LoadOpenedSolicitations(log, input.email, today)| == 1 ==>
      var x := LoadOpenedSolicitations(log, input.email, today)[0];
      && LoggedRequest(log, input.email, today, x)
      && !LoggedClosing(log, input.email, today, x)
      && var r := SendForms(input, log, today, isWorkingDay, postStatus);
      if x.start.Some? && x.back.Some? then
        var days := CountBusinessDays(isWorkingDay, x.start.value, x.back.value);
        && r.Success?
        && r.value.status == postStatus
        && r.value.original == Some(Original(x.start.value, x.back.value, days))
        && r.value.posted == Some(PayloadOf(input, CancellationDetailsOf(input, x.start, x.back, Some(days))))
      else
        r == Failure(MissingDate)
  {
    var open := LoadOpenedSolicitations(log, input.email, today);
    if |open| == 1 {
      OpenIffNotClosed(log, input.email, today, open[0]);
    }
  }

  /** Any other action is refused without a POST. */
  lemma UnsupportedActionRefused(input: FormInput, log: seq<FormRow>, today: Day, isWorkingDay: Day -> bool, postStatus: int)
    requires Normalize(input.action) != RequestAction && Normalize(input.action) != CancellationAction
    ensures SendForms(input, log, today, isWorkingDay, postStatus) == Failure(UnsupportedAction)
  {
  }

  /** `send_forms` POSTs exactly for a request, or for a cancellation with a
      single open request whose dates are both filled in. */
  lemma PostsExactlyWhen(input: FormInput, log: seq<FormRow>, today: Day, isWorkingDay: Day -> bool, postStatus: int)
    ensures var open := LoadOpenedSolicitations(log, input.email, today);
      Posts(SendForms(input, log, today, isWorkingDay, postStatus))
      <==> || Normalize(input.action) == RequestAction
           || (&& Normalize(input.action) == CancellationAction
               && |open| == 1 && open[0].start.Some? && open[0].back.Some?)
  {
  }

  /** The cancellation body `send_forms` POSTs is the one `enviar_formulario`
      would build with the original dates and count filled in. */
  lemma CancellationPostsFormPayload(input: FormInput, log: seq<FormRow>, today: Day, isWorkingDay: Day -> bool, postStatus: int)
    requires Lower(input.action) == CancellationAction
    ensures var r := SendForms(input, log, today, isWorkingDay, postStatus);
      Posts(r) ==>
      var o := r.value.original.value;
      r.value.posted == Some(FormPayload(input.(previousStart := Some(o.start), previousReturn := Some(o.back),
                                                 previousBusinessDays := Some(o.businessDays))))
  {
    ActionNeedsNoStrip(input.action);
  }
}
