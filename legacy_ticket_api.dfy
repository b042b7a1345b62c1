/** The older pages-router ticket endpoint (pages/api/create-ticket.ts): the
    same forwarding as `TicketRoute`, but it also demands a name, does not check
    the email's shape and files the seat number in a custom field. */
module LegacyTicketApi {
  import opened Results
  import opened Freshdesk
  import opened JsText

  datatype Payload = Payload(
    email: string, name: string, subject: string, description: string,
    priority: int, status: int, seatNumberField: string)

  datatype Outbound = Outbound(url: string, credentials: string, payload: Payload)

  /** The reply: its status, the `Allow` header if one was set, and the JSON body. */
  datatype ApiReply = ApiReply(status: int, allow: Option<seq<string>>, body: ReplyBody)

  datatype Handled = Handled(reply: ApiReply, sent: Option<Outbound>)

  const FieldsRequired: string := "Name, email, and seat_no are required"

  /** Template-literal rendering of `req.method`, which may be undefined. */
  function MethodName(verb: Option<string>): string {
    if verb.Some? then verb.value else "undefined"
  }

  function BuildPayload(seatNo: string, name: string, email: string, body: TicketBody): Payload {
    Payload(email, name, OrElse(body.subject, "Seat: " + seatNo + " - " + name),
            "Name: " + name + "\nSeat No: " + seatNo + "\n\n" + OrElse(body.description, ""),
            1, 2, seatNo)
  }

  function Plain(status: int, error: string): ApiReply {
    ApiReply(status, None, ErrorBody(error))
  }

  /** The handler; `verb` is `req.method` and `body` the parsed `req.body`. */
  function Handler(verb: Option<string>, body: TicketBody, config: Config, upstream: Upstream): (h: Handled)
    // only POST requests are served; anything else is told which method is allowed
    ensures verb != Some("POST") ==>
      h == Handled(ApiReply(405, Some(["POST"]), ErrorBody("Method " + MethodName(verb) + " Not Allowed")), None)
    ensures h.reply.allow.Some? <==> verb != Some("POST")
    // the helpdesk is called exactly when name, email, seat number and configuration are all present
    ensures h.sent.Some? <==> verb == Some("POST") && Truthy(body.name) && Truthy(body.email)
                              && Truthy(body.seat_no) && Truthy(config.domain) && Truthy(config.apiKey)
    ensures verb == Some("POST") && !(Truthy(body.name) && Truthy(body.email) && Truthy(body.seat_no)) ==>
      h.reply == ApiReply(400, None, ErrorBody("Name, email, and seat_no are required"))
    ensures verb == Some("POST") && Truthy(body.name) && Truthy(body.email) && Truthy(body.seat_no)
            && !(Truthy(config.domain) && Truthy(config.apiKey)) ==>
      h.reply == ApiReply(500, None, ErrorBody("Freshdesk configuration missing"))
    ensures h.sent.Some? ==>
      var o := h.sent.value;
      o.url == TicketsUrl(config.domain.value) && o.credentials == Credentials(config.apiKey.value)
      && o.payload.email == body.email.value && o.payload.name == body.name.value
      && o.payload.seatNumberField == body.seat_no.value && o.payload.priority == 1 && o.payload.status == 2
      && (Truthy(body.subject) ==> o.payload.subject == body.subject.value)
      && (!Truthy(body.subject) ==> o.payload.subject == "Seat: " + body.seat_no.value + " - " + body.name.value)
      && o.payload.description == "Name: " + body.name.value + "\nSeat No: " + body.seat_no.value + "\n\n"
                                  + (if Truthy(body.description) then body.description.value else "")
    ensures h.reply.body.Created? <==> h.sent.Some? && upstream.Answered? && IsOkStatus(upstream.status)
    ensures h.reply.body.Created? ==> h.reply.status == 200 && h.reply.body.ticketId == upstream.id
    ensures h.sent.Some? && upstream.Answered? && !IsOkStatus(upstream.status) ==>
      h.reply == ApiReply(upstream.status, None, ErrorBody(
        if Truthy(upstream.message) then upstream.message.value else "Failed to create ticket"))
    ensures h.sent.Some? && upstream.Unreadable? && IsOkStatus(upstream.status) ==>
      h.reply == ApiReply(500, None, ErrorBody("Internal server error"))
    ensures h.sent.Some? && upstream.Unreadable? && !IsOkStatus(upstream.status) ==>
      h.reply == ApiReply(upstream.status, None, ErrorBody("Failed to create ticket"))
    ensures h.sent.Some? && upstream.NetworkFailure? ==> h.reply == ApiReply(500, None, ErrorBody("Internal server error"))
  {
    if verb != Some("POST") then
      Handled(ApiReply(405, Some(["POST"]), ErrorBody("Method " + MethodName(verb) + " Not Allowed")), None)
    else if !Truthy(body.name) || !Truthy(body.email) || !Truthy(body.seat_no) then
      Handled(Plain(400, FieldsRequired), None)
    else if !Truthy(config.domain) || !Truthy(config.apiKey) then
      Handled(Plain(500, ConfigMissing), None)
    else
      var out := Outbound(TicketsUrl(config.domain.value), Credentials(config.apiKey.value),
                          BuildPayload(body.seat_no.value, body.name.value, body.email.value, body));
      var reply := match upstream
        case NetworkFailure => Plain(500, InternalError)
        case Unreadable(status) =>
          if IsOkStatus(status) then Plain(500, InternalError) else Plain(status, FailedToCreate)
        case Answered(status, message, id) =>
          if IsOkStatus(status) then ApiReply(200, None, Created(id))
          else Plain(status, OrElse(message, FailedToCreate));
      Handled(reply, Some(out))
  }
}
