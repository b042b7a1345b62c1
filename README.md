# A verified model of the form builder's server logic

The application lets a signed-in user build forms (questions with options,
ordered `1..N`), publish them, collect submissions and read them back. It can
also turn one of its built-in templates into a new form. A form titled
"Ticketing Form" additionally opens a helpdesk ticket. This project models the
parts of the application that carry logic, and proves what they promise:

- **Answer normalisation and submission** (`transform`, `submitForm`). The
  per-question answer map becomes typed descriptors. These are checked against
  the form: mandatory questions must be answered, and every answer must belong
  to the form. They are then written as one Response and one Answer per
  descriptor. For a ticketing form, the ticket fields are taken from the
  answers.
- **Response read-outs** (`getGroupedResponsesFromUser`,
  `getResponsesFromForm`). The first gives answers bucketed per response,
  newest response first. The second gives the export matrix: a header row, then
  one row per response, with the cell of a question at `order - 1`.
- **Ordering**. `deleteQuestion` shifts later siblings up one place.
  `createOption` appends at the highest order plus one. `createFormFromTemplate`
  numbers questions `1..N` and options `1..M`.
- **Owner and publication gates**. These are the publish toggle, the question
  update, the "author or published" read gate and `deleteForm`.
- **The template catalogue**: `getTemplateById`, `getTemplatesByCategory` and
  `getAllCategories` over the constant `FORM_TEMPLATES`, which is transcribed in
  full.
- **The ticket endpoints and the ticket page**:
  - the `POST /api/ticket/create` guard chain and helpdesk payload;
  - the older `pages/api/create-ticket` handler;
  - the page's `validate`, `handleChange` and `handleSubmit`.

The database is a value `Db`: five tables as sequences, plus the counter from
which row ids are minted (`Tables`). Each server action is a function from a
database to a new database and a reply (`Ok`, an `{ error }` object as
`Refused`, or an exception as `Thrown`). The lemmas about it sit in the
action's own module. The class `Store.Store` holds the tables as fields. Its
methods perform each action step by step, with the source's loops, and each
method is proved to leave exactly the state the action's function describes.
Two methods follow the corrected order rather than the source's (see
"## Findings"): `SubmitForm` builds every answer row before it writes the
Response, and `DeleteForm` chooses the responses to delete before it deletes
their answers.
The page's React state is the class `TicketFormPage.TicketFormState`.

Every table is kept *well minted*: ids strictly increase along the table and
stay below the counter, and questions and options refer only to minted ids.
Every state-changing action is proved to preserve this invariant.

## Model

| member | source | states |
|---|---|---|
| Normaliser.Emit | lib/actions/actions.ts:33-65 | An entry yields at most one descriptor, and yields one exactly when it is answered: a short response always, a single choice only with a non-empty option id, a multiple choice only with a non-empty id list. The descriptor keeps the key and type. A short response carries the text and no option ids; a choice carries no text and its own option id(s). |
| Normaliser.NormalisedMembers | lib/actions/actions.ts:30-69 | A descriptor is in the output exactly when some entry of the map emits it. |
| Normaliser.NormalisedShorter | lib/actions/actions.ts:33-66 | The output has at most one descriptor per input entry. |
| Normaliser.NormalisedFromKeys | lib/actions/actions.ts:33-66 | Every descriptor's question id is the key of an answered entry. |
| Normaliser.NormalisedOnePerKey | lib/actions/actions.ts:33-66 | With distinct keys, no question id occurs twice in the output. |
| Normaliser.KeptEntryIsAnswered | lib/actions/actions.ts:33-66 | Every answered entry's key appears among the output's question ids. No answered key is dropped. |
| Normaliser.Transform | lib/actions/actions.ts:30-69 | The `for…in` loop pushing into `result` computes exactly the normalised list. |
| Submission.FirstUnanswered | lib/actions/actions.ts:128-133 | A reported question is mandatory, is one of the form's, and no descriptor answers it. |
| Submission.FirstUnansweredNone | lib/actions/actions.ts:128-133 | No question is reported exactly when every mandatory question is answered. |
| Submission.FirstUnansweredAt | lib/actions/actions.ts:129-132 | The reported question is the first unanswered mandatory one in table order. |
| Submission.ForeignAnswer | lib/actions/actions.ts:135-145 | The lookup loop fails only with "no record found" or "Question does not belong to the form". |
| Submission.ForeignAnswerNone | lib/actions/actions.ts:135-145 | The lookup loop passes exactly when every answer's question exists and belongs to the form. |
| Submission.AnswerRow | lib/actions/actions.ts:153-205 | A descriptor gives a row exactly when it is storable. The row carries the minted id, the question, form and response ids, and the text of a short response or "" with the connected options of a choice. |
| Submission.BuildRows | lib/actions/actions.ts:153-205 | When rows are built, there is one per descriptor. |
| Submission.BuildRowsSpec | lib/actions/actions.ts:153-205 | Rows are built exactly when every descriptor is storable. Row `k` is descriptor `k`'s row under the `k`-th id minted after the Response's. |
| Submission.BuildRowsErrorPersists | lib/actions/actions.ts:153-205 | The first descriptor that throws decides the error of the whole `map`. |
| Submission.MakeRows | lib/actions/actions.ts:153-205 | The loop building rows one by one computes exactly `BuildRows`. |
| Submission.FieldAfterAssign | lib/actions/actions.ts:223-236 | One `forEach` step sets only the field whose caption the question carries. |
| Submission.ExtractTicketField | lib/actions/actions.ts:212-236 | Each ticket field is the text of the last answer whose question carries its caption. It is "" when there is no such answer, and "" for a choice. |
| Submission.ExtractTicketFields | lib/actions/actions.ts:212-236 | The `reduce` and `forEach` compute exactly the extracted ticket fields. |
| Submission.TicketingTemplateMatchesLabels | lib/templates.ts:55-88 | The catalogue's ticketing template is titled "Ticketing Form". Its five short-response questions are exactly the captions `submitForm` matches on, in order. |
| Submission.PlanOfDecides | lib/actions/actions.ts:109-207 | A submission is rejected exactly when a pre-write check fails. It commits only with the form found, every row built and every connected option present. |
| Submission.WritesOnlyAfterChecks | lib/actions/actions.ts:127-147 | Nothing is written unless the form exists, every mandatory question is answered and every answer's question is in the form. The corrected order writes only where the source's order writes. |
| Submission.AfterCommitOnlyTicket | lib/actions/actions.ts:209-260 | After the answers are committed, the ticket step changes no table. It either succeeds or throws "Form submitted but ticket creation failed". |
| Submission.SubmitAtomicAllOrNothing | lib/actions/actions.ts:147-207 | Any throw other than the ticket failure leaves the database unchanged. A write adds one Response and, for each descriptor, exactly its matching Answer row, all pointing at that Response. |
| Submission.SubmitAtomicAgreesOnCommit | lib/actions/actions.ts:106-264 | Whenever the source's order is rejected or commits, the corrected order gives the same outcome. |
| Submission.AsWrittenLeavesResponse | lib/actions/actions.ts:147-207 | As written, an unstorable descriptor throws after the Response was created. The Response stays, with no answer. |
| Submission.NullTextPassesChecks | lib/actions/actions.ts:153-157 | A short response with a null text passes normalisation and every check, then fails while its row is built. |
| Submission.AsWrittenOrphanExample | lib/actions/actions.ts:147-157 | On that input, the source's order throws and leaves one Response and no Answer. |
| Submission.AtomicOrphanExample | lib/actions/actions.ts:147-207 | On the same input, the corrected order throws and leaves the database as it was. |
| Submission.NormalisedStorableUnlessNullText | lib/actions/actions.ts:153-186 | After normalisation, a descriptor is unstorable exactly when it is a short response with a null text. |
| Submission.SubmitKeepsValid | lib/actions/actions.ts:147-207 | The source's order keeps every table well minted. |
| Submission.SubmitAtomicKeepsValid | lib/actions/actions.ts:147-207 | The corrected order keeps every table well minted. |
| ResponseViews.SelectedExactly | lib/actions/actions.ts:275-292 | The query returns one row per qualifying answer (an answer of the form whose question belongs to the user): every qualifying answer's row is selected, and every selected row is the row of an answer in the table. |
| ResponseViews.BucketedKeepsEveryAnswer | lib/actions/actions.ts:295-317 | The buckets hold exactly the selected answers, with multiplicity. |
| ResponseViews.BucketedByResponse | lib/actions/actions.ts:297-317 | Every bucket is non-empty and holds only answers of its own response. |
| ResponseViews.BucketedIdsDistinct | lib/actions/actions.ts:295-306 | No two buckets share a response id. |
| ResponseViews.BucketRows | lib/actions/actions.ts:295-317 | The `forEach` filling the dictionary computes exactly the buckets. |
| ResponseViews.ToGroupSpec | lib/actions/actions.ts:319-322 | A group keeps its response id and exactly its bucket's answers, sorted by question order. |
| ResponseViews.GroupedResponsesOrdered | lib/actions/actions.ts:319-327 | There is one group per bucket, groups come newest first, and answers within a group are in question order. |
| ResponseViews.GroupedResponsesAreBuckets | lib/actions/actions.ts:319-329 | Every bucket's group is returned, and every returned group is some bucket's group. |
| ResponseViews.GroupRows | lib/actions/actions.ts:294-329 | Bucketing, the per-bucket sort and the final sort compute exactly the grouped responses. |
| ResponseViews.AssignSlots | lib/actions/actions.ts:394-400 | `row[index] = value` on a JavaScript array: a negative index changes nothing. Otherwise the slot at `index` holds the value and every other existing slot is kept. The array is just long enough to hold `index`, and the slots it grew by are holes. |
| ResponseViews.FillSlots | lib/actions/actions.ts:393-401 | With every order in `1..n`, the row keeps its length. Slot `i` holds the last answer for order `i + 1`, or its previous value. |
| ResponseViews.Header | lib/actions/actions.ts:354-365 | The header has one cell per question of the form. |
| ResponseViews.MatrixRowCells | lib/actions/actions.ts:385-405 | With every answered order in `1..N`, a response's row has exactly N cells. Cell `i` is the last answer (in question order) for order `i + 1`, or "" when the response did not answer it. |
| ResponseViews.FillRow | lib/actions/actions.ts:386-404 | One response's row, filled by the loop, is exactly its matrix row. |
| ResponseViews.FillRows | lib/actions/actions.ts:385-405 | The `map` over the buckets yields exactly one matrix row per bucket. |
| ResponseViews.ExportRows | lib/actions/actions.ts:332-408 | The export is the header followed by one row per response. |
| Sorting.SortBySpec | lib/actions/actions.ts:321 | A numeric-comparator sort returns a sorted permutation of its input. |
| QuestionOrder.Refusal | lib/actions/actions.ts:648-690 | The guard chain passes exactly when there is a session, the form exists and is the user's, and the question exists in that form. |
| QuestionOrder.DeleteQuestion | lib/actions/actions.ts:648-724 | A refusal changes nothing and returns the guard's error. Otherwise the questions table becomes the delete-and-shift batch's result. |
| QuestionOrder.DeleteAndShiftIsShiftedRest | lib/actions/actions.ts:692-719 | The batch's result is the table without the target, with every other row shifted. |
| QuestionOrder.DeleteAndShiftRows | lib/actions/actions.ts:692-719 | Every other row survives shifted, and nothing else survives: the target is gone. |
| QuestionOrder.OtherFormsUntouched | lib/actions/actions.ts:692-719 | The rows of every other form keep their values and their order. |
| QuestionOrder.DeleteCount | lib/actions/actions.ts:712-719 | The form loses exactly one question. |
| QuestionOrder.DeleteKeepsContiguous | lib/actions/actions.ts:692-719 | A form numbered `1..N` is numbered `1..N-1` afterwards. |
| QuestionOrder.DeleteKeepsRelativeOrder | lib/actions/actions.ts:704-710 | Two surviving questions of the form keep their relative order. |
| QuestionOrder.DeleteQuestionKeepsValid | lib/actions/actions.ts:648-724 | A delete keeps every table well minted. |
| QuestionOrder.DeleteQuestionContiguous | lib/actions/actions.ts:648-724 | A successful delete removes the question and keeps the form's orders contiguous, one fewer. |
| QuestionOrder.DeleteQuestionKeepsOtherForms | lib/actions/actions.ts:648-724 | A delete, refused or not, leaves every other form's questions exactly as they were. |
| OptionOrder.NextOrder | lib/actions/options/create.ts:37 | The next order is 1 without options, and otherwise one more than some existing order and greater than all of them. |
| OptionOrder.CreateOption | lib/actions/options/create.ts:7-49 | Without a session nothing is created. An unknown or foreign question throws and changes nothing. Otherwise exactly one option is appended, the existing options are unchanged and one id is consumed. |
| OptionOrder.CreatedOption | lib/actions/options/create.ts:37-46 | The new option has the given text and question and the next minted id. Its order is above every sibling's: 1, or one more than a sibling's order. |
| OptionOrder.CreateOptionKeepsOrdersDistinct | lib/actions/options/create.ts:37-46 | Options of the same question keep pairwise distinct orders. |
| OptionOrder.CreateOptionKeepsValid | lib/actions/options/create.ts:40-46 | The insert keeps every table well minted. |
| TemplateInstantiation.NewOptions | lib/actions/templates.ts:40-48 | One option row is made per option text. |
| TemplateInstantiation.CreateFormFromTemplate | lib/actions/templates.ts:7-53 | Without a session it is refused and nothing changes. Otherwise it returns the new form, titled with the template's name, owned by the user and appended to the forms. |
| TemplateInstantiation.AddQuestionsKeepForms | lib/actions/templates.ts:24-50 | The question loop never touches the forms table. |
| TemplateInstantiation.AddQuestionsInstantiates | lib/actions/templates.ts:24-50 | After the loop, question `k` copies template question `k`: text, type, placeholder or "", order `k + 1`. It has exactly its options at orders `1..M`. Every option row the loop appends belongs to one of the questions it added. Earlier rows and the other tables are unchanged. |
| TemplateInstantiation.AddQuestionsKeepsValid | lib/actions/templates.ts:24-50 | The loop keeps every table well minted. |
| TemplateInstantiation.TemplateRows | lib/actions/templates.ts:16-50 | A signed-in call instantiates every template question with exactly its options, appends no option row for any other question, and gives a short-response question no option. |
| TemplateInstantiation.NewFormContiguous | lib/actions/templates.ts:24-36 | The new form's questions carry exactly the orders `1..N`, N the template's length. |
| TemplateInstantiation.CreateKeepsValid | lib/actions/templates.ts:7-53 | The whole action keeps every table well minted. |
| FormAccess.TogglePublish | lib/actions/actions.ts:487-513 | Without a session it is refused. Without an owned form it throws. Either way nothing changes, and success changes only the forms table. |
| FormAccess.ToggleFlipsOnlyPublished | lib/actions/actions.ts:495-512 | Success flips `published` on the owner's form row, changes nothing else, and returns the updated row. |
| FormAccess.ToggleTwiceRestores | lib/actions/actions.ts:487-513 | Toggling twice gives back the original database. |
| FormAccess.ToggleKeepsValid | lib/actions/actions.ts:502-510 | The toggle keeps every table well minted. |
| FormAccess.UpdateQuestion | lib/actions/actions.ts:515-550 | Without a session it is refused. With nothing to write it returns nothing and changes nothing. With no matching owned question it throws and changes nothing. Otherwise only the questions table changes, keeping its length. |
| FormAccess.UpdateRewritesOneRow | lib/actions/actions.ts:528-549 | An update rewrites exactly the named owned question of the form, only in the passed fields, and returns it. |
| FormAccess.UpdateIdempotent | lib/actions/actions.ts:515-550 | Applying the same edit twice equals applying it once. |
| FormAccess.UpdateKeepsValid | lib/actions/actions.ts:541-548 | The update keeps every table well minted. |
| FormAccess.QuestionsInOrder | lib/actions/actions.ts:581-587 | The form's questions, each once, sorted by ascending order. |
| FormAccess.QuestionsForRespondent | lib/actions/actions.ts:552-598 | It answers exactly when the form exists and the reader is its author or it is published. Otherwise it returns "Form does not exist" or "Form is not published". |
| FormAccess.RespondentListing | lib/actions/actions.ts:581-597 | A permitted reader gets the form's questions, each once, in ascending order. Each comes with exactly its own options, in ascending order. |
| FormDeletion.Refusal | lib/actions/actions.ts:790-814 | The guard chain passes exactly when there is a session and the form exists and is the user's. |
| FormDeletion.DeleteFormAsWritten | lib/actions/actions.ts:790-862 | It succeeds exactly when the guards pass. A refusal changes nothing and returns the guard's error. |
| FormDeletion.AsWrittenKeepsEveryResponse | lib/actions/actions.ts:817-847 | As written, the response step matches nothing: every response survives. |
| FormDeletion.AsWrittenOrphanResponse | lib/actions/actions.ts:817-854 | Deleting a form with one submission leaves that submission's Response behind, with no answer. |
| FormDeletion.DeleteForm | lib/actions/actions.ts:790-862 | The corrected delete has the same guards and the same refusals. |
| FormDeletion.CascadingRemovesSubmission | lib/actions/actions.ts:817-854 | The corrected delete removes that submission's Response too. |
| FormDeletion.DeleteFormCascades | lib/actions/actions.ts:817-854 | Afterwards no answer, option, question or form row of the form is left, and no response that had an answer in it. Every other row is kept. |
| FormDeletion.DeleteFormKeepsValid | lib/actions/actions.ts:817-854 | Both versions keep every table well minted. |
| Catalogue.TemplateById | lib/templates.ts:1112-1114 | A found template has the requested id. |
| Catalogue.TemplateByIdFinds | lib/templates.ts:1112-1114 | Nothing is found exactly when no template has the id. Otherwise the result is the first template that has it. |
| Catalogue.TemplateByIdUnique | lib/templates.ts:1112-1114 | With distinct ids, looking up a template's id finds that template. |
| Catalogue.CatalogueIdsDistinct | lib/templates.ts:15-1110 | The ids in `FORM_TEMPLATES` are pairwise distinct. |
| Catalogue.TicketingTemplateFound | lib/templates.ts:55-88 | `getTemplateById("ticketing")` returns the ticketing template. |
| Catalogue.TemplatesInCategory | lib/templates.ts:1116-1118 | The result holds only catalogue templates of the category, and every such template. |
| Catalogue.TemplatesInCategoryKeepOrder | lib/templates.ts:1116-1118 | The selected templates keep their catalogue order. |
| Catalogue.AllCategories | lib/templates.ts:1120-1123 | No category is listed twice. Every listed category is used by some template, and every template's category is listed. |
| Catalogue.AllCategoriesFirstUseOrder | lib/templates.ts:1120-1123 | Categories come in the order of their first use in the catalogue. |
| Seqs.Dedup | lib/templates.ts:1122 | `Array.from(new Set(s))` has no duplicates and holds exactly the values of `s`. |
| Seqs.DedupFirstOccurrenceOrder | lib/templates.ts:1122 | Its values come in the order of their first occurrence. |
| TicketRoute.Rejection | app/api/ticket/create/route.ts:3-114 | The guard chain lets a request through exactly when the body parsed, seat number and email are non-empty, the email matches `^[^\s@]+@[^\s@]+\.[^\s@]+$`, and domain and key are set. Each guard answers with its own reply: an unparsable body 500 "Internal server error", a missing seat number or email 400 "seat_no and email are required", a malformed email 400 "Invalid email address", a missing configuration 500 "Freshdesk configuration missing". |
| TicketRoute.Post | app/api/ticket/create/route.ts:3-116 | The helpdesk is called exactly when the guards pass, at the tickets URL with `<apiKey>:X`. The payload has the email, name or "", subject or `Seat:<seat> - <name or Unknown>`, exactly the description `Seat No: <seat>` followed by a blank line and the description or "", priority 1 and status 2. A `{ ticket_id }` body is returned exactly when the helpdesk answered ok with a JSON body, carrying its id or none. A helpdesk refusal keeps its status and carries its message or "Failed to create ticket". An ok reply whose body is not JSON, and a network failure, give 500 "Internal server error". |
| Freshdesk.Credentials | app/api/ticket/create/route.ts:43 | The credential before encoding is the API key as user and `X` as password. |
| LegacyTicketApi.Handler | pages/api/create-ticket.ts:3-57 | A non-POST request gets 405 with `Allow: POST` and nothing else does. A missing name, email or seat number gets 400 "Name, email, and seat_no are required"; a missing configuration gets 500 "Freshdesk configuration missing". The helpdesk is called exactly when all three are present and configured. Any non-empty email passes. The payload has the name, the given subject or else `Seat: <seat> - <name>`, the `Name:/Seat No:` description, the seat number field, priority 1 and status 2. A `{ ticket_id }` body is returned exactly when the helpdesk answered ok with a JSON body, carrying its id or none. A helpdesk refusal keeps its status and carries its message or "Failed to create ticket". An ok reply whose body is not JSON, and a network failure, give 500 "Internal server error". |
| JsText.TrimStartSpec | app/ticket-form/page.tsx:21 | Trimming the start removes exactly a whitespace prefix and stops at a non-whitespace character. |
| JsText.TrimEndSpec | app/ticket-form/page.tsx:21 | Trimming the end removes exactly a whitespace suffix and stops at a non-whitespace character. |
| JsText.TrimSpec | app/ticket-form/page.tsx:21-24 | `trim()` returns an infix of the string between a whitespace prefix and a whitespace suffix, with no whitespace at either end. |
| JsText.TrimEmptyIffBlank | app/ticket-form/page.tsx:21-24 | A string trims to "" exactly when all of it is whitespace. |
| JsText.EmailRegexTestMeansMatch | app/api/ticket/create/route.ts:16-17 | The regex test accepts a string exactly when it is local part, `@`, a domain containing a `.` with text on both sides, and no whitespace or second `@`. |
| TicketFormPage.FormData.With | app/ticket-form/page.tsx:37 | `{ ...formData, [name]: value }` sets that field and keeps every other field. |
| TicketFormPage.ValidateMeaning | app/ticket-form/page.tsx:19-34 | Only the seat number and the email are ever flagged. The seat number is flagged ("Seat number is required") exactly when blank. The email is flagged exactly when it does not have the address shape, with "Email is required" when blank and "Invalid email address" otherwise. |
| TicketFormPage.ValidateAcceptsIff | app/ticket-form/page.tsx:19-34 | There is no error exactly when the seat number is not blank and the email has the address shape. |
| TicketFormPage.PageAcceptedIsForwarded | app/ticket-form/page.tsx:19-34 | What the page accepts, the route forwards when the helpdesk is configured. |
| TicketFormPage.FailureText | app/ticket-form/page.tsx:75 | The error banner for a failed reply is never empty. |
| TicketFormPage.RejectedSubmitOnlyShowsErrors | app/ticket-form/page.tsx:45-49 | A submit failing validation stores the errors and changes nothing else. |
| TicketFormPage.AcceptedSubmitShowsOneBanner | app/ticket-form/page.tsx:50-81 | A valid submit ends with loading off and exactly one banner, the success one exactly when the reply was ok. The form is cleared exactly on success, and on failure the message is not empty. |
| TicketFormPage.SuccessBannerNamesTicket | app/ticket-form/page.tsx:65-66 | The success banner reports the created ticket's id, and reads `#undefined` when the reply carries none. |
| TicketFormPage.TicketFormState.constructor | app/ticket-form/page.tsx:6-17 | The component starts with five empty fields, no errors, no banner, and not loading. |
| TicketFormPage.TicketFormState.HandleChange | app/ticket-form/page.tsx:36-41 | Stores the typed value in its field only, clears only that field's error, and clears both banners. |
| TicketFormPage.TicketFormState.HandleSubmit | app/ticket-form/page.tsx:43-82 | The new state is the submit's outcome. A body is posted exactly when validation passes, and it is the form data. |
| TicketFormPage.TicketFormState.ShowReply | app/ticket-form/page.tsx:50-81 | After the post, the state shows the reply's banner. |
| Store.CheckSubmission | lib/actions/actions.ts:109-145 | The lookups and the two loops before the first write decide exactly the submission's checks. |
| Store.HighestOrderPlusOne | lib/actions/options/create.ts:37 | The loop computes exactly the next option order. |
| Store.ShiftAndDelete | lib/actions/actions.ts:692-719 | The batch over the questions table computes exactly the delete-and-shift result. |
| Store.Store.Settle | lib/actions/actions.ts:147-260 | Writes a planned submission as its settlement says: nothing unless it commits. |
| Store.Store.SubmitForm | lib/actions/actions.ts:106-264 | Leaves the store and replies as the all-or-nothing submission does, and keeps the store well minted. |
| Store.Store.GroupedResponses | lib/actions/actions.ts:266-330 | Refused exactly without a session. Otherwise returns the user's answers grouped per response. |
| Store.Store.ResponsesMatrix | lib/actions/actions.ts:332-408 | Refused exactly without a session. Otherwise returns the export matrix. |
| Store.Store.DeleteQuestion | lib/actions/actions.ts:648-724 | Leaves the store and replies as `deleteQuestion` does, keeping it well minted. |
| Store.Store.CreateOption | lib/actions/options/create.ts:7-49 | Leaves the store and replies as `createOption` does, keeping it well minted. |
| Store.Store.TogglePublish | lib/actions/actions.ts:487-513 | Leaves the store and replies as the toggle does, keeping it well minted. |
| Store.Store.UpdateQuestion | lib/actions/actions.ts:515-550 | Leaves the store and replies as the update does, keeping it well minted. |
| Store.Store.DeleteForm | lib/actions/actions.ts:790-862 | Leaves the store and replies as the corrected delete does, keeping it well minted. |
| Store.Store.AddTemplateQuestion | lib/actions/templates.ts:25-49 | One pass of the outer loop adds the question row, then its option rows one by one. |
| Store.Store.AddTemplateQuestions | lib/actions/templates.ts:24-50 | The nested loops add every template question with its options. |
| Store.Store.CreateFormFromTemplate | lib/actions/templates.ts:7-53 | Leaves the store and replies as `createFormFromTemplate` does, keeping it well minted. |

## Left out

- Prisma, sessions, `revalidatePath` and `redirect`. The database is an in-memory value, and the acting user is a parameter (`None` without a session). A `$transaction` is all-or-nothing, and neither isolation nor concurrent requests are modelled.
- Row ids: Prisma generates cuid strings; the model mints decimal ids from a counter. Only freshness and uniqueness matter to the modelled logic.
- Timestamps are integers. `new Date().toISOString()` and the `getTime()` comparison become `now` and integer order.
- Network calls are inputs: the `fetch` to the helpdesk, the `fetch` from `submitForm` to the ticket route, and the page's `fetch`. The helpdesk's answer, the ticket call's success and the route's reply are passed in. The base64 encoding of the credential is not modelled; its input string is.
- JSON bodies carry string fields (or missing ones). A field of another JSON type is not modelled.
- Normaliser.Transform: the answer map is a sequence of entries in iteration order. JavaScript's `for…in` puts integer-like keys first, in ascending order, and the model does not reproduce that ordering.
- ResponseViews.Selected: the grouped query's `orderBy: submittedAt desc` is not modelled; answers are taken in table order. The final stable sort by time still yields newest first. Responses with equal timestamps may come in a different order than the database would return them.
- ResponseViews.BucketRows: `Object.values` on the dictionary is modelled as first-insertion order. JavaScript lists integer-like keys first, which cuid ids never are.
- ResponseViews.MatrixRowCells: proved only when every answered question's order lies in `1..N`. Outside that range, `ResponseViews.AssignSlots` states how one assignment grows the array with holes, but no lemma describes whole rows.
- QuestionOrder.DeleteQuestion: the deleted question's options and answers stay in their tables. Whether `question.delete` cascades to them or fails on their foreign keys (and so rolls back the shifts) depends on a database schema that is not part of this model, and neither outcome is modelled.
- ResponseViews.Header: states only the length. The order and contents of the header follow from `Sorting.SortBySpec` on the form's questions.
- `getResponsesSummaryFromUser`, `getQuestionsFromUser`, `getFormsFromUser`, `getFormFromUser`, `getFormIfPublishedOrIsAuthor`, `checkIfUserIsLoggedIn`, `createForm`, `updateFormFromUser` and `updateOptionText` are plain queries or single updates with no logic beyond an ownership filter.
- app/api/generate-form/route.ts (a language-model call and JSON parsing), app/api/create-samples/route.ts and scripts/create-sample-forms.ts (seeding around the same template instantiation) are not part of this model.
- The React components and pages other than the ticket form are not part of this model. Neither is the ticket form's rendering.
- TicketFormPage.TicketFormState.HandleSubmit: the `loading` flag is true only while the request is outstanding. The method runs to completion, so only its final value (false) is observable here.

## Findings

| source | as written | input that shows it | evidently intended | confidence | as-written member | corrected member |
|---|---|---|---|---|---|---|
| lib/actions/actions.ts:147-207 | `submitForm` creates the Response before it builds the answer rows and runs their transaction. A row that throws, or a connect to a missing option, leaves a Response with no answers. | Form "0" with one optional short-response question "1". The map `{ "1": { type: SHORT_RESPONSE, text: null } }` passes every check, then throws "Missing answerText for question 1" after the Response was written. | The checks and the rows come first, and the Response and its answers are written together or not at all. | not executed | Submission.AsWrittenOrphanExample | Submission.SubmitAtomicAllOrNothing |
| lib/actions/actions.ts:817-847 | `deleteForm` deletes the form's answers first, then deletes "responses with some answer of this form". That condition can no longer match, so every response survives. | One form with one submission holding one answer. After the delete the form and the answer are gone, but Response "2" remains. | Every response that had an answer in the form is deleted with it. | not executed | FormDeletion.AsWrittenOrphanResponse | FormDeletion.DeleteFormCascades |
