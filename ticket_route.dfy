/** `POST /api/ticket/create` (app/api/ticket/create/route.ts): validate the
    ticket fields, then forward them to the helpdesk. */
module TicketRoute {
  import opened Results
  import opened Freshdesk
  import opened JsText

  datatype Payload = Payload(
    email: string, name: string, subject: string, description: string, priority: int, status: int)

  /** The request the route would send to the helpdesk. */
  datatype Outbound = Outbound(url: string, credentials: string, payload: Payload)

  datatype HttpReply = HttpReply(status: int, body: ReplyBody)

  /** The route's reply, and the helpdesk request it issued, if any. */
  datatype Handled = Handled(reply: HttpReply, sent: Option<Outbound>)

  const FieldsRequired: string := "seat_no and email are required"
  const InvalidEmail: string := "Invalid email address"

  function DefaultSubject(seatNo: string, name: Option<string>): string {
    "Seat:" + seatNo + " - " + OrElse(name, "Unknown")
  }

  function TicketDescription(seatNo: string, description: Option<string>): string {
    "Seat No: " + seatNo + "\n\n" + OrElse(description, "")
  }

  function BuildPayload(seatNo: string, email: string, body: TicketBody): Payload {
    Payload(email, OrElse(body.name, ""), OrElse(body.subject, DefaultSubject(seatNo, body.name)),
            TicketDescription(seatNo, body.description), 1, 2)
  }

  /** The guard chain of the route, in source order; `None` when the request may be forwarded. */
  function Rejection(body: Option<TicketBody>, config: Config): (r: Option<HttpReply>)
    ensures r.None? <==> body.Some? && Truthy(body.value.seat_no) && Truthy(body.value.email)
                         && MatchesEmailPattern(body.value.email.value)
                         && Truthy(config.domain) && Truthy(config.apiKey)
    ensures r.Some? ==> r.value.status in {400, 500} && r.value.body.ErrorBody?
    // which guard answers with which reply
    ensures body.None? ==> r == Some(HttpReply(500, ErrorBody("Internal server error")))
    ensures body.Some? && !(Truthy(body.value.seat_no) && Truthy(body.value.email)) ==>
      r == Some(HttpReply(400, ErrorBody("seat_no and email are required")))
    ensures body.Some? && Truthy(body.value.seat_no) && Truthy(body.value.email)
            && !MatchesEmailPattern(body.value.email.value) ==>
      r == Some(HttpReply(400, ErrorBody("Invalid email address")))
    ensures body.Some? && Truthy(body.value.seat_no) && Truthy(body.value.email)
            && MatchesEmailPattern(body.value.email.value) && !(Truthy(config.domain) && Truthy(config.apiKey)) ==>
      r == Some(HttpReply(500, ErrorBody("Freshdesk configuration missing")))
  {
    EmailRegexTestMeansMatchAll();
    if body.None? then Some(HttpReply(500, ErrorBody(InternalError)))
    else if !Truthy(body.value.seat_no) || !Truthy(body.value.email) then Some(HttpReply(400, ErrorBody(FieldsRequired)))
    else if !EmailRegexTest(body.value.email.value) then Some(HttpReply(400, ErrorBody(InvalidEmail)))
    else if !Truthy(config.domain) || !Truthy(config.apiKey) then Some(HttpReply(500, ErrorBody(ConfigMissing)))
    else None
  }

  lemma EmailRegexTestMeansMatchAll()
    ensures forall s :: EmailRegexTest(s) <==> MatchesEmailPattern(s)
  {
    forall s { EmailRegexTestMeansMatch(s); }
  }

  /** The route: `body` is `None` when the request's JSON cannot be parsed. */
  function Post(body: Option<TicketBody>, config: Config, upstream: Upstream): (h: Handled)
    ensures h.sent.Some? <==> Rejection(body, config).None?
    ensures h.sent.None? ==> h.reply == Rejection(body, config).value
    // what is forwarded: the validated email, the seat number at the head of the description
    ensures h.sent.Some? ==>
      var b := body.value; var o := h.sent.value;
      o.url == TicketsUrl(config.domain.value) && o.credentials == Credentials(config.apiKey.value)
      && o.payload.email == b.email.value && o.payload.priority == 1 && o.payload.status == 2
      && o.payload.name == (if Truthy(b.name) then b.name.value else "")
      && (Truthy(b.subject) ==> o.payload.subject == b.subject.value)
      && (!Truthy(b.subject) ==> o.payload.subject == "Seat:" + b.seat_no.value + " - " + (if Truthy(b.name) then b.name.value else "Unknown"))
      && o.payload.description == "Seat No: " + b.seat_no.value + "\n\n"
                                  + (if Truthy(b.description) then b.description.value else "")
    // a ticket id is returned exactly when the helpdesk accepted the ticket
    ensures h.reply.body.Created? <==> h.sent.Some? && upstream.Answered? && IsOkStatus(upstream.status)
    ensures h.reply.body.Created? ==> h.reply.status == 200 && h.reply.body.ticketId == upstream.id
    // a helpdesk refusal keeps its status and always carries a message
    ensures h.sent.Some? && upstream.Answered? && !IsOkStatus(upstream.status) ==>
      h.reply == HttpReply(upstream.status, ErrorBody(
        if Truthy(upstream.message) then upstream.message.value else "Failed to create ticket"))
    // an ok reply whose body is not JSON throws in `response.json()`, which the route catches;
    // a refusal whose body is not JSON falls back to the default message
    ensures h.sent.Some? && upstream.Unreadable? && IsOkStatus(upstream.status) ==>
      h.reply == HttpReply(500, ErrorBody("Internal server error"))
    ensures h.sent.Some? && upstream.Unreadable? && !IsOkStatus(upstream.status) ==>
      h.reply == HttpReply(upstream.status, ErrorBody("Failed to create ticket"))
    // a fetch that throws is caught as an internal error
    ensures h.sent.Some? && upstream.NetworkFailure? ==> h.reply == HttpReply(500, ErrorBody("Internal server error"))
  {
    match Rejection(body, config)
    case Some(reply) => Handled(reply, None)
    case None =>
      var b := body.value;
      var out := Outbound(TicketsUrl(config.domain.value), Credentials(config.apiKey.value),
                          BuildPayload(b.seat_no.value, b.email.value, b));
      Handled(Forwarded(upstream), Some(out))
  }

  /** How the helpdesk's answer is passed back. */
  function Forwarded(upstream: Upstream): HttpReply {
    match upstream
    case NetworkFailure => HttpReply(500, ErrorBody(InternalError))
    case Unreadable(status) =>
      if IsOkStatus(status) then HttpReply(500, ErrorBody(InternalError))
      else HttpReply(status, ErrorBody(FailedToCreate))
    case Answered(status, message, id) =>
      if IsOkStatus(status) then HttpReply(200, Created(id))
      else HttpReply(status, ErrorBody(OrElse(message, FailedToCreate)))
  }
}
