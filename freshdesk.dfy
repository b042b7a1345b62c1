/** What the two ticket endpoints share: the request body they read, the
    helpdesk configuration and the helpdesk's reply (an input here, since the HTTP
    call itself is not modelled). */
module Freshdesk {
  import opened Results

  /** A JSON body field: `None` stands for a missing or `null` value. */
  datatype TicketBody = TicketBody(
    seat_no: Option<string>, name: Option<string>, email: Option<string>,
    subject: Option<string>, description: Option<string>)

  /** `FRESHDESK_DOMAIN` and `FRESHDESK_API_KEY` from the environment. */
  datatype Config = Config(domain: Option<string>, apiKey: Option<string>)

  /** How the helpdesk's `POST /api/v2/tickets` ended: an HTTP reply whose body
      is JSON, with its status and the body's `message` and `id` fields (either
      may be absent); an HTTP reply whose body is not JSON, with its status; or
      a `fetch` that threw. */
  datatype Upstream =
    | Answered(status: int, message: Option<string>, id: Option<int>)
    | Unreadable(status: int)
    | NetworkFailure

  /** A reply's JSON body: `{ error }`, or `{ ticket_id }`, which serialises as
      `{}` when the ticket id is undefined. */
  datatype ReplyBody = ErrorBody(error: string) | Created(ticketId: Option<int>)

  /** `Response.ok`. */
  predicate IsOkStatus(status: int) {
    200 <= status <= 299
  }

  function TicketsUrl(domain: string): string {
    "https://" + domain + "/api/v2/tickets"
  }

  /** The Basic-auth credential before base64 encoding: the API key as user, `X` as password. */
  function Credentials(apiKey: string): (c: string)
    ensures |c| == |apiKey| + 2 && c[..|apiKey|] == apiKey && c[|apiKey|..] == ":X"
  {
    apiKey + ":X"
  }

  const FailedToCreate: string := "Failed to create ticket"
  const InternalError: string := "Internal server error"
  const ConfigMissing: string := "Freshdesk configuration missing"
}
