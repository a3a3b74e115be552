/** academics/serializers.py: the media size limit and the fields the
    serializers fill in from the request rather than from the submitted data. */
module AcademicSerializers {
  import opened Common
  import opened Users
  import opened AcademicModels

  /** 10 MB, the limit of AcademicQuestionMediaSerializer.validate_file. */
  const MaxQuestionMediaSize: nat := 10 * MiB

  /** validate_file: a file larger than 10 MiB is refused; a file of exactly
      10 MiB passes, the comparison being strict. */
  function ValidateQuestionMediaFile(size: nat): (r: Result<nat>)
    ensures r.Ok? <==> size <= 10 * 1024 * 1024
    ensures r.Ok? ==> r.value == size
    ensures r.Err? ==> r.error == FileTooLarge
  {
    if size > MaxQuestionMediaSize then Err(FileTooLarge) else Ok(size)
  }

  /** What a client submits to create an answer. teacher, created_at and
      is_accepted are read-only: whatever the client sends for them is
      dropped. */
  datatype AnswerSubmission = AnswerSubmission(
    question: QuestionId,
    answerText: string,
    attachment: Option<string>,
    teacher: Option<UserId>,
    createdAt: Option<Timestamp>,
    isAccepted: Option<bool>)

  /** AcademicAnswerSerializer.create: validated_data['teacher'] is the
      requester; created_at is the server clock; is_accepted takes its
      default. */
  function NewAnswer(s: AnswerSubmission, requester: User, now: Timestamp): (f: AnswerFields)
    ensures f.teacher == requester.id
    ensures f.createdAt == now && !f.isAccepted
    ensures f.answerText == s.answerText && f.attachment == s.attachment
  {
    AnswerFields(requester.id, s.answerText, s.attachment, now, false)
  }

  /** What a client submits to create a question. student, created_at and
      updated_at are read-only; teacher, status and session_fee are not in
      read_only_fields and are taken from the submission (status defaulting
      to 'pending' when absent). */
  datatype QuestionSubmission = QuestionSubmission(
    title: string,
    description: string,
    student: Option<UserId>,
    teacher: Option<UserId>,
    subject: Subject,
    status: Option<QuestionStatus>,
    sessionFee: Option<Cents>)

  /** AcademicQuestionSerializer.create: validated_data['student'] is the
      requester. */
  function NewQuestion(s: QuestionSubmission, requester: User): (f: QuestionFields)
    ensures f.student == requester.id
    ensures f.status == (if s.status.Some? then s.status.value else DefaultQuestionStatus)
    ensures f.teacher == s.teacher && f.subject == s.subject && f.sessionFee == s.sessionFee
    ensures f.title == s.title && f.description == s.description
  {
    QuestionFields(s.title, s.description, requester.id, s.teacher, s.subject,
                   if s.status.Some? then s.status.value else DefaultQuestionStatus, s.sessionFee)
  }

  /** Two submissions that differ only in the read-only fields create the
      same answer, and a question submitted without a status or a teacher
      starts unassigned and pending. */
  lemma ReadOnlyFieldsIgnored(s: AnswerSubmission, t: AnswerSubmission, q: QuestionSubmission, requester: User, now: Timestamp)
    requires s.question == t.question && s.answerText == t.answerText && s.attachment == t.attachment
    ensures NewAnswer(s, requester, now) == NewAnswer(t, requester, now)
    ensures q.teacher.None? && q.status.None? ==> NewQuestion(q, requester).teacher.None? && NewQuestion(q, requester).status == Pending
  {
  }
}
