# Vacation request and cancellation engine — Dafny model

This project models the core of an HR assistant that lets employees request
and cancel vacation ("férias") through a chat agent. The spreadsheet of form
answers is the system of record: an append-only log of requests
("Solicitação") and cancellations ("Cancelamento"). The current state is
derived by replaying that log.

The model covers these parts of the system:

- **Business-day counter** (`calcular_dias_uteis`). Module `BusinessDays`, file
  `business_days.dfy`. It counts the days of an inclusive range that the
  holiday calendar reports as working days. The calendar is a parameter
  `isWorkingDay: Day -> bool` and dates are day numbers.
- **Directory lookup** (`buscar_dados_organograma`). Module `Directory`, file
  `directory.dfy`. The queried e-mail is lower-cased and stripped. The result
  comes from the first row of the "Colaboradores" table whose e-mail column
  equals it. If no row matches, the result is the `erro` message.
- **Open-request resolver** (`load_opened_solicitations`). Module
  `Solicitations`, file `solicitations.dfy`, with generic sequence operations
  in `Seqs` (`seqs.dfy`). It works in these steps:
  - filter the log by exact e-mail and by a start date strictly after today;
  - split the rows into requests and cancellations by the stripped action text;
  - apply `drop_duplicates` and sort by timestamp;
  - do a forward as-of join on `(email, saida, retorno)`.

  A request is open when the join attached no cancellation to it.
- **Dispatch** (`send_forms`, and `enviar_formulario` as a payload builder).
  Module `Forms`, file `forms.dfy`. The POST is an effect. Its status is a
  parameter, and the JSON body it would send is part of the result.
- **Agent tools** (`solicitar_ferias`, `cancelar_ferias`,
  `consultar_dias_uteis`). Module `Agent`, file `agent.dfy`. Every outside
  input is passed in as an `Environment`:
  - the directory table;
  - the response sheet;
  - today's date;
  - the calendar;
  - the POST status;
  - how a date is written in a message.

The rendering of Python's `lower()`, `strip()` and integer f-strings lives in
`Text` (`text.dfy`). `Option` and `Result` are in `Wrappers` (`wrappers.dfy`).

Three behaviours of the code are worth stating up front:

- **Start-date filter.** A row is kept only when one of the two start-date
  columns is strictly after today; return dates are not consulted.
- **Cancellations are not consumed by the join.** `merge_asof` leaves the
  matched cancellation available, so one cancellation closes every earlier
  request with the same key, not only the nearest one.
  `CancellationClosesAllEarlier` states this.
- **The log is matched on the e-mail as typed.** The directory is matched on
  the normalised e-mail, but the response sheet is matched on the exact text
  the caller typed. `CancelMatchesLoggedEmailVerbatim` states this.

## Model

| member | source | states |
|---|---|---|
| BusinessDays.CountBusinessDays | src/register.py:53-57 | a reversed range counts 0; otherwise the count never exceeds the number of calendar days in the inclusive range |
| BusinessDays.CountIsWorkingDaySetSize | src/register.py:55-57 | the count equals the size of the set of working days in the inclusive range |
| BusinessDays.SingleDay | src/register.py:55-57 | a one-day range counts 1 exactly when that day is a working day, and 0 exactly when it is not |
| BusinessDays.CountSplit | src/register.py:55-57 | splitting the range after any day in it (or just before it) splits the count into two parts that add up to the whole |
| BusinessDays.CountIsFullExactlyWhenAllWork | src/register.py:55-57 | the count equals the number of calendar days if and only if every day of the range is a working day |
| BusinessDays.CountByEnumeration | src/register.py:53-57 | enumerating the days of the range and counting the working ones yields the number of working days in the range |
| Text.StripCharacterization | src/register.py:37 | `strip()` of a string with no whitespace at its ends, padded by whitespace on both sides, returns exactly that string |
| Text.NormalizeIdempotent | src/register.py:37 | lower-casing and stripping an already normalised e-mail changes nothing |
| Text.NormalizeIgnoresCaseAndPadding | src/register.py:37 | strings that differ only in letter case and surrounding whitespace normalise to the same e-mail |
| Text.NatToStringRoundTrip | src/agent.py:56 | the decimal digits a day count is printed with read back to the same count, so distinct counts print differently |
| Directory.FirstMatch | src/register.py:41-45 | finds nothing exactly when no row's e-mail equals the key; otherwise returns the index of the first row whose e-mail equals it |
| Directory.LookupEmployee | src/register.py:35-50 | no match exactly when no row's e-mail equals the normalised query, and then the message embeds the normalised e-mail; on a match, returns the leader, tribe and area of the first matching row |
| Directory.LookupIgnoresCaseAndPadding | src/register.py:37-43 | queries that differ only in case or surrounding whitespace give the same lookup result |
| Directory.LookupOfNormalizedQuery | src/register.py:37 | looking up the normalised e-mail gives the same result as looking up the raw query |
| Directory.LookupIgnoresLaterRows | src/register.py:41-45 | once a table has a matching row, appending rows does not change the lookup result |
| Seqs.Filter | src/register.py:114-117 | the rows kept are exactly the input rows that satisfy the condition |
| Seqs.Dedupe | src/register.py:123 | the result has no repeated rows and holds exactly the same rows as the input |
| Seqs.FilterKeepsOrder | src/register.py:166 | selecting rows keeps every ordering between the rows kept, so the join's row selection keeps timestamp order |
| Solicitations.SortByStamp | src/register.py:135 | the result is sorted by timestamp, is a permutation of the input, and has no repeats when the input has none |
| Solicitations.AsofMatch | src/register.py:158-165 | attaches no cancellation exactly when no cancellation has the same (email, saida, retorno) key and a timestamp at or after the request's; an attached one has that key and such a timestamp |
| Solicitations.AsofMatchIsNearest | src/register.py:158-165 | on a table sorted by timestamp, the attached cancellation is the nearest one forward in time |
| Solicitations.MergeAsofOpen | src/register.py:158-168 | keeps exactly the requests with no attached cancellation, and keeps the table free of repeats and in timestamp order |
| Solicitations.LoadOpenedSolicitations | src/register.py:111-169 | the open requests contain no repeated row and are sorted by ascending timestamp |
| Solicitations.RequestTableMembers | src/register.py:114-136 | the request table holds exactly the projections of the rows with the exact e-mail, a start date after today and the stripped action "Solicitação" |
| Solicitations.CancellationTableMembers | src/register.py:114-157 | the cancellation table holds exactly the projections, with the original dates, of the filtered rows with the stripped action "Cancelamento" |
| Solicitations.OpenIffNotClosed | src/register.py:111-169 | a row is open if and only if it is a filtered request of the log and no filtered cancellation with the same key has a timestamp at or after it |
| Solicitations.OpenRequestsMatchEmailExactly | src/register.py:116 | every open row carries the queried e-mail verbatim, and its start date or the logged row's original start date is after today |
| Solicitations.CancellationClosesAllEarlier | src/register.py:158-168 | one filtered cancellation closes every same-key request at or before its timestamp, not only the latest |
| Solicitations.EarlierCancellationsDoNotClose | src/register.py:158-168 | a filtered request whose same-key cancellations all come strictly earlier is open |
| Solicitations.AppendingCancellation | src/register.py:158-168 | appending a filtered cancellation closes exactly the same-key requests at or before it and changes no other request's state |
| Solicitations.IrrelevantRowsChangeNothing | src/register.py:114-117 | rows of another e-mail, or with no start date after today, leave the result unchanged, including its order |
| Solicitations.SingleRequestIsOpen | src/register.py:111-169 | a log with a single filtered request yields exactly that request |
| Forms.SendForms | src/register.py:172-248 | the request action always POSTs; a POSTed response carries the POST's status, and its body carries the caller's identity, contract and action; an unPOSTed success is status 202 with the nothing-to-cancel text; original dates come back exactly for a POSTed cancellation |
| Forms.RequestPostsFormPayload | src/register.py:198-211 | a request is POSTed with status from the endpoint; when the action needs no stripping, the body is `Forms.FormPayload`, the one `enviar_formulario` (src/register.py:77-92) builds |
| Forms.CancellationWithNothingOpen | src/register.py:238-242 | when every logged request is closed, the result is status 202 with "Não há férias para serem canceladas." and no POST |
| Forms.CancellationWithSeveralOpen | src/register.py:243-245 | with two distinct open requests, the call raises AmbiguousOpenRequests and does not POST |
| Forms.CancellationWithOneOpen | src/register.py:212-237 | with one open request, it is a logged and unclosed request; exactly one POST goes out, with original dates equal to it and an original count of the business days between them; an empty date cell raises instead |
| Forms.UnsupportedActionRefused | src/register.py:246-248 | any action other than "solicitação"/"cancelamento" after lower/strip raises and does not POST |
| Forms.PostsExactlyWhen | src/register.py:198-248 | a POST happens if and only if the action is a request, or a cancellation with exactly one open request whose dates are both present |
| Forms.CancellationPostsFormPayload | src/register.py:212-228 | a cancellation body equals `Forms.FormPayload`, the one `enviar_formulario` (src/register.py:93-104) builds, with the original dates and count filled in |
| Agent.RequestVacation | src/agent.py:23-56 | when the lookup fails, returns its message unchanged and POSTs nothing; otherwise POSTs "Solicitação" with the typed e-mail, the leader, tribe and area the lookup found, "Prestador de Serviços" and the number of working days of the period, and replies with both dates and that count, whatever the POST status |
| Agent.CancelVacation | src/agent.py:66-103 | when the lookup fails, returns its message and POSTs nothing; any POST is a "Cancelamento" carrying the typed e-mail, the leader, tribe and area the lookup found, "Prestador de Serviços" and the justification (empty when none is given); the only exceptions come from the dispatch, never an unsupported action |
| Agent.DefaultJustificationIsSent | src/agent.py:66 | called with the default justification, the tool POSTs that default text |
| Agent.ConsultBusinessDays | src/agent.py:106-117 | the sentence embeds both dates and the number of working days in the inclusive range |
| Agent.CancelWithNothingOpen | src/agent.py:82-103 | when every logged request is closed, returns "Não há férias para serem canceladas." and POSTs nothing |
| Agent.CancelWithSeveralOpen | src/agent.py:82-91 | two distinct open requests make the tool raise the ambiguity error, with no POST |
| Agent.CancelWithOneOpen | src/agent.py:82-103 | with one open request, POSTs once with its dates and business days; status 200 echoes the period and count; 202 returns the dispatch text; any other status returns nothing |
| Agent.CancelNeverMissesResponseKey | src/agent.py:92-96 | reading the original dates on status 200 never fails, because a 200 always comes with them |
| Agent.CancelMatchesLoggedEmailVerbatim | src/agent.py:78-91 | an e-mail the directory accepts but that matches no logged e-mail verbatim finds nothing to cancel |
| Agent.SubmitThenCancelEchoesRequest | src/agent.py:41-56 | after a logged request, a cancellation echoes the same dates and the same business-day count that the request POSTed |
| Agent.TwoRequestsMakeCancelAmbiguous | src/agent.py:82-91 | two logged, unclosed requests with different entries make the cancel tool raise instead of picking one |

## Left out

- Google Sheets authentication and `load_sheet` (src/register.py:10-32).
  These are remote I/O. The directory and the response sheet are sequences of
  records. The model does not reproduce the renaming of the header columns
  (src/register.py:38-39), or what a sheet with no data rows does: pandas
  builds a frame without columns. For the response sheet the `query` at
  src/register.py:116 then raises; for the directory it is `df["email"]` at
  src/register.py:41 that raises a `KeyError`.
- `requests.post` and the `print` calls. These are network and console I/O.
  The POST is the `postStatus` parameter plus the body recorded in the result.
  Transport failures (the POST raising) are not modelled.
- The `workalendar` Brazilian holiday rules. This is a foreign library; the
  calendar is the uninterpreted predicate `isWorkingDay`.
- Date and timestamp parsing (`pd.date_range` string parsing, `pd.to_datetime`
  with `%d/%m/%Y %H:%M:%S`). Dates and timestamps are integers.
  - The source compares the date cells with today's `'%Y-%m-%d'` string as
    strings. The model compares day numbers, which gives the same order for
    ISO-formatted cells.
  - An empty cell is `None` and is never after today.
  - A malformed date or timestamp is not modelled.
  - An empty date cell in the single open request is modelled as the
    `MissingDate` error.
- Tie order of the timestamp sort. The source's `sort_values` uses an
  unstable quicksort. The model uses an insertion sort, and only sortedness,
  permutation and absence of repeats are stated.
- `datetime.now()` and `consultar_ano_atual`. Today's date is a parameter, and
  the current-year tool has no logic beyond the clock.
- Unicode case mapping beyond Latin-1. `Lower` maps ASCII and Latin-1
  upper-case letters; `IsSpace` is Python's full whitespace set.
- The dead keyword arguments of `send_forms`. `data_saida_original`,
  `data_retorno_original` and `qtd_dias_original` are overwritten before use.
  They are kept in `FormInput` only because `enviar_formulario` uses them.
- The texts of the exceptions. The two `NotImplementedError` messages
  (src/register.py:244, 247) and the `ValueError` pandas raises for an empty
  date are modelled by the kind of `FormError` alone.
- `criar_agente`, the LangChain tool registration, the prompt template,
  environment configuration and the FastAPI wrapper. These are LLM
  orchestration, configuration and HTTP plumbing.
- Concurrent cancellations. The source takes no lock, so there is no
  synchronisation to model.
- Agent.RequestVacation: the reply's dates are rendered through `showDay`,
  standing for the text the caller passed. The Python f-string echoes that
  text verbatim.
- Forms.CancellationWithNothingOpen: also holds for an empty response sheet,
  where the program raises instead (see the sheet loading above).
- Agent.CancelWithNothingOpen: also holds for `env.log == []`, where the
  program raises instead of answering "Não há férias para serem canceladas.".
- Agent.CancelMatchesLoggedEmailVerbatim: also holds for `env.log == []`,
  where the program raises instead.
