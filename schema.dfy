/** The records the application keeps (its Prisma models), as values. */
module Schema {
  import opened Ids

  datatype QuestionType = ShortResponse | SelectOneOption | SelectMultipleOptions

  datatype Form = Form(id: Id, userId: Id, title: string, published: bool)

  /** `userId` repeats the owning form's user, so ownership can be checked on the question alone. */
  datatype Question = Question(
    id: Id, formId: Id, userId: Id, text: string, placeholder: string,
    qtype: QuestionType, order: int, mandatory: bool)

  datatype OptionRow = OptionRow(id: Id, questionId: Id, optionText: string, order: int)

  /** A submission event; timestamps are integers. */
  datatype Response = Response(id: Id, submittedAt: int)

  /** `optionIds` is the set of connected options, kept without repetition. */
  datatype Answer = Answer(
    id: Id, questionId: Id, formId: Id, responseId: Id,
    answerText: string, optionIds: seq<Id>)
}
