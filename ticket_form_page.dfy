/** The ticket form page (app/ticket-form/page.tsx): its React state, the
    client-side validation and what a submit does with the route's reply. */
module TicketFormPage {
  import opened Results
  import opened Ids
  import opened Freshdesk
  import opened JsText
  import TicketRoute

  datatype Field = SeatNo | Name | Email | Subject | Description

  datatype FormData = FormData(seat_no: string, name: string, email: string, subject: string, description: string)
  {
    function Get(f: Field): string {
      match f
      case SeatNo => seat_no
      case Name => name
      case Email => email
      case Subject => subject
      case Description => description
    }

    /** `{ ...formData, [name]: value }` */
    function With(f: Field, value: string): (d: FormData)
      ensures d.Get(f) == value
      ensures forall g :: g != f ==> d.Get(g) == Get(g)
    {
      match f
      case SeatNo => this.(seat_no := value)
      case Name => this.(name := value)
      case Email => this.(email := value)
      case Subject => this.(subject := value)
      case Description => this.(description := value)
    }

    /** The JSON body the page posts: every field is sent, as a string. */
    function AsBody(): TicketBody {
      TicketBody(Some(seat_no), Some(name), Some(email), Some(subject), Some(description))
    }
  }

  const EmptyForm: FormData := FormData("", "", "", "", "")

  const SeatRequired: string := "Seat number is required"
  const EmailRequired: string := "Email is required"
  const EmailInvalid: string := "Invalid email address"

  /** `validate()`: the seat number and the email must not be blank, and the
      untrimmed email must pass the email pattern. */
  function Validate(d: FormData): map<Field, string> {
    var seat := if Trim(d.seat_no) == [] then map[SeatNo := SeatRequired] else map[];
    if Trim(d.email) == [] then seat[Email := EmailRequired]
    else if !EmailRegexTest(d.email) then seat[Email := EmailInvalid]
    else seat
  }

  /** Which errors `validate()` reports, in terms of blank strings and the
      shape of an email address rather than of trimming and the regex test. */
  lemma ValidateMeaning(d: FormData)
    ensures forall f :: f in Validate(d) ==> f == SeatNo || f == Email
    ensures SeatNo in Validate(d) <==> AllWhitespace(d.seat_no)
    ensures SeatNo in Validate(d) ==> Validate(d)[SeatNo] == SeatRequired
    ensures Email in Validate(d) <==> !MatchesEmailPattern(d.email)
    ensures Email in Validate(d) ==> Validate(d)[Email] == (if AllWhitespace(d.email) then EmailRequired else EmailInvalid)
  {
    ValidateSeat(d);
    ValidateEmail(d);
  }

  lemma ValidateSeat(d: FormData)
    ensures forall f :: f in Validate(d) ==> f == SeatNo || f == Email
    ensures SeatNo in Validate(d) <==> AllWhitespace(d.seat_no)
    ensures SeatNo in Validate(d) ==> Validate(d)[SeatNo] == SeatRequired
  {
    TrimEmptyIffBlank(d.seat_no);
  }

  lemma ValidateEmail(d: FormData)
    ensures Email in Validate(d) <==> !MatchesEmailPattern(d.email)
    ensures Email in Validate(d) ==> Validate(d)[Email] == (if AllWhitespace(d.email) then EmailRequired else EmailInvalid)
  {
    TrimEmptyIffBlank(d.email);
    EmailRegexTestMeansMatch(d.email);
    BlankIsNoEmail(d.email);
  }

  /** The form is submitted exactly when the seat number is not blank and the
      email has the shape of an address. */
  lemma ValidateAcceptsIff(d: FormData)
    ensures Validate(d) == map[] <==> !AllWhitespace(d.seat_no) && MatchesEmailPattern(d.email)
  {
    ValidateMeaning(d);
    if Validate(d) == map[] {
      assert SeatNo !in Validate(d) && Email !in Validate(d);
    }
  }

  /** A blank string never has the shape of an email address. */
  lemma BlankIsNoEmail(s: string)
    ensures AllWhitespace(s) ==> !MatchesEmailPattern(s)
  {
  }

  /** What the page accepts, the route accepts too: a form with no validation
      errors passes the route's own field checks, so with the helpdesk
      configured it is forwarded. */
  lemma PageAcceptedIsForwarded(d: FormData, config: Config, upstream: Upstream)
    requires Validate(d) == map[]
    requires Truthy(config.domain) && Truthy(config.apiKey)
    ensures TicketRoute.Post(Some(d.AsBody()), config, upstream).sent.Some?
  {
    ValidateMeaning(d);
    assert d.email != [] by {
      if d.email == [] { BlankIsNoEmail(d.email); }
    }
  }

  /** `${n}` for an integer. */
  function IntText(n: int): string {
    if n < 0 then "-" + Decimal(-n) else Decimal(n)
  }

  /** `${data.ticket_id}`: a body without a ticket id renders it as `undefined`. */
  function TicketIdText(body: ReplyBody): string {
    if body.Created? && body.ticketId.Some? then IntText(body.ticketId.value) else "undefined"
  }

  function SuccessText(body: ReplyBody): string {
    "Your Ticket has been generated! Ticket ID: #" + TicketIdText(body)
  }

  /** The message shown for a reply that is not ok: `data.error || fallback`. */
  function FailureText(body: ReplyBody): (m: string)
    ensures m != ""
  {
    if body.ErrorBody? && body.error != "" then body.error else FailedToCreate
  }

  /** A snapshot of the component's state. */
  datatype PageState = PageState(
    formData: FormData, errors: map<Field, string>, loading: bool,
    successMessage: Option<string>, errorMessage: Option<string>)

  const InitialState: PageState := PageState(EmptyForm, map[], false, None, None)

  /** Whether a reply counts as `response.ok`; `None` means the request threw. */
  predicate Succeeded(reply: Option<TicketRoute.HttpReply>) {
    reply.Some? && IsOkStatus(reply.value.status)
  }

  /** The state after `handleSubmit` has run to completion. */
  function AfterSubmit(st: PageState, reply: Option<TicketRoute.HttpReply>): PageState {
    var validation := Validate(st.formData);
    if validation != map[] then st.(errors := validation)
    else AfterReply(st, reply)
  }

  /** The state once the POST has answered (or thrown): one banner, loading off. */
  function AfterReply(st: PageState, reply: Option<TicketRoute.HttpReply>): PageState {
    if Succeeded(reply) then
      st.(formData := EmptyForm, loading := false, successMessage := Some(SuccessText(reply.value.body)), errorMessage := None)
    else
      var message := if reply.Some? then FailureText(reply.value.body) else FailedToCreate;
      st.(loading := false, successMessage := None, errorMessage := Some(message))
  }

  /** A submit that fails validation replaces the shown errors and changes nothing else. */
  lemma RejectedSubmitOnlyShowsErrors(st: PageState, reply: Option<TicketRoute.HttpReply>)
    requires AllWhitespace(st.formData.seat_no) || !MatchesEmailPattern(st.formData.email)
    ensures AfterSubmit(st, reply) == st.(errors := Validate(st.formData))
    ensures AfterSubmit(st, reply).errors != map[]
  {
    ValidateMeaning(st.formData);
  }

  /** A submit that passes validation ends with loading off and exactly one
      banner; the form is cleared exactly when the ticket was created, and the
      field errors shown before are left as they were. */
  lemma AcceptedSubmitShowsOneBanner(st: PageState, reply: Option<TicketRoute.HttpReply>)
    requires !AllWhitespace(st.formData.seat_no) && MatchesEmailPattern(st.formData.email)
    ensures var after := AfterSubmit(st, reply);
      !after.loading && after.errors == st.errors
      && (after.successMessage.Some? <==> after.errorMessage.None?)
      && (after.successMessage.Some? <==> Succeeded(reply))
      && (Succeeded(reply) ==> after.formData == EmptyForm)
      && (!Succeeded(reply) ==> after.formData == st.formData && after.errorMessage.value != "")
  {
    ValidateAcceptsIff(st.formData);
  }

  /** A created ticket's id is what the success banner reports; a reply
      without one shows `#undefined`. */
  lemma SuccessBannerNamesTicket(st: PageState, status: int, ticketId: int)
    requires !AllWhitespace(st.formData.seat_no) && MatchesEmailPattern(st.formData.email)
    requires IsOkStatus(status)
    ensures AfterSubmit(st, Some(TicketRoute.HttpReply(status, Created(Some(ticketId))))).successMessage
            == Some("Your Ticket has been generated! Ticket ID: #" + IntText(ticketId))
    ensures AfterSubmit(st, Some(TicketRoute.HttpReply(status, Created(None)))).successMessage
            == Some("Your Ticket has been generated! Ticket ID: #" + "undefined")
  {
    ValidateAcceptsIff(st.formData);
    var named := Some(TicketRoute.HttpReply(status, Created(Some(ticketId))));
    var unnamed := Some(TicketRoute.HttpReply(status, Created(None)));
    assert AfterSubmit(st, named) == AfterReply(st, named);
    assert AfterSubmit(st, unnamed) == AfterReply(st, unnamed);
  }

  /** The component. */
  class TicketFormState {
    var formData: FormData
    var errors: map<Field, string>
    var loading: bool
    var successMessage: Option<string>
    var errorMessage: Option<string>

    function State(): PageState
      reads this
    {
      PageState(formData, errors, loading, successMessage, errorMessage)
    }

    constructor ()
      ensures State() == InitialState
    {
      formData := EmptyForm;
      errors := map[];
      loading := false;
      successMessage := None;
      errorMessage := None;
    }

    /** `handleChange`: store the typed value, clear that field's error and both banners. */
    method HandleChange(f: Field, value: string)
      modifies this
      ensures formData == old(formData).With(f, value)
      ensures errors == old(errors)[f := ""]
      ensures successMessage.None? && errorMessage.None?
      ensures loading == old(loading)
    {
      formData := formData.With(f, value);
      errors := errors[f := ""];
      successMessage := None;
      errorMessage := None;
    }

    /** `handleSubmit`. `reply` is what the POST to the ticket route answered,
        `None` when the request or the JSON parse threw; `sent` is the body
        posted, `None` when validation stopped the submit. */
    method HandleSubmit(reply: Option<TicketRoute.HttpReply>) returns (sent: Option<FormData>)
      modifies this
      ensures State() == AfterSubmit(old(State()), reply)
      ensures sent.Some? <==> Validate(old(formData)) == map[]
      ensures sent.Some? ==> sent.value == old(formData)
    {
      var validation := Validate(formData);
      if validation != map[] {
        errors := validation;
        return None;
      }
      sent := Some(formData);
      ShowReply(reply);
    }

    /** The part of `handleSubmit` after validation passed: post, then show the outcome. */
    method ShowReply(reply: Option<TicketRoute.HttpReply>)
      modifies this
      ensures State() == AfterReply(old(State()), reply)
    {
      loading := true;
      successMessage := None;
      errorMessage := None;
      if Succeeded(reply) {
        var r := reply.value;
        successMessage := Some(SuccessText(r.body));
        formData := EmptyForm;
      } else if reply.Some? {
        errorMessage := Some(FailureText(reply.value.body));
      } else {
        errorMessage := Some(FailedToCreate);
      }
      loading := false;
    }
  }
}
