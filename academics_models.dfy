/** academics/models.py: academic questions asked by students and claimed by
    teachers, the media attached to them and the teachers' answers. A question
    and an answer are objects because the view actions update their fields in
    place before saving them. */
module AcademicModels {
  import opened Common
  import opened Users

  type QuestionId = nat
  type AnswerId = nat

  /** STATUS_CHOICES */
  datatype QuestionStatus = Pending | Assigned | Answered | Closed

  /** status = CharField(choices=STATUS_CHOICES, default='pending') */
  const DefaultQuestionStatus: QuestionStatus := Pending

  /** SUBJECT_CHOICES, ten of them. */
  datatype Subject =
    | Mathematics | Physics | Chemistry | Biology | ComputerScience
    | Literature | History | Geography | Economics | OtherSubject

  /** AcademicQuestionMedia.file_type choices */
  datatype QuestionMediaType = ImageFile | DocumentFile | VideoFile

  /** The part of a question row its lifecycle reads and writes: the asking
      student, the optional assigned teacher, and the status. */
  datatype QuestionState = QuestionState(student: UserId, teacher: Option<UserId>, status: QuestionStatus)

  /** The values a new question row is created from. */
  datatype QuestionFields = QuestionFields(
    title: string,
    description: string,
    student: UserId,
    teacher: Option<UserId>,
    subject: Subject,
    status: QuestionStatus,
    sessionFee: Option<Cents>)

  class Question {
    const id: QuestionId
    var title: string
    var description: string
    const student: UserId
    /** ForeignKey(null=True, on_delete=SET_NULL): no teacher until one claims it. */
    var teacher: Option<UserId>
    var subject: Subject
    var status: QuestionStatus
    var sessionFee: Option<Cents>
    const createdAt: Timestamp

    function State(): QuestionState
      reads this
    {
      QuestionState(student, teacher, status)
    }

    constructor (id: QuestionId, f: QuestionFields, now: Timestamp)
      ensures this.id == id && createdAt == now
      ensures title == f.title && description == f.description && subject == f.subject
      ensures sessionFee == f.sessionFee
      ensures State() == QuestionState(f.student, f.teacher, f.status)
    {
      this.id, this.createdAt := id, now;
      title, description, student, teacher := f.title, f.description, f.student, f.teacher;
      subject, status, sessionFee := f.subject, f.status, f.sessionFee;
    }

    /** on_delete=SET_NULL: deleting the assigned teacher clears the teacher
        and leaves everything else, the status included, as it was. */
    method TeacherDeleted(deleted: UserId)
      modifies this`teacher
      ensures State() == TeacherRemoved(old(State()), deleted)
    {
      if teacher == Some(deleted) {
        teacher := None;
      }
    }
  }

  /** The question state after the user `deleted` is removed. */
  function TeacherRemoved(q: QuestionState, deleted: UserId): (r: QuestionState)
    ensures r.student == q.student && r.status == q.status
    ensures q.teacher == Some(deleted) ==> r.teacher.None?
    ensures q.teacher != Some(deleted) ==> r.teacher == q.teacher
  {
    if q.teacher == Some(deleted) then q.(teacher := None) else q
  }

  /** The values a new answer row is created from. */
  datatype AnswerFields = AnswerFields(
    teacher: UserId,
    answerText: string,
    attachment: Option<string>,
    createdAt: Timestamp,
    isAccepted: bool)

  class Answer {
    const id: AnswerId
    const question: Question
    const teacher: UserId
    const answerText: string
    const attachment: Option<string>
    const createdAt: Timestamp
    /** is_accepted = BooleanField(default=False) */
    var isAccepted: bool

    constructor (id: AnswerId, question: Question, f: AnswerFields)
      ensures this.id == id && this.question == question
      ensures teacher == f.teacher && answerText == f.answerText && attachment == f.attachment
      ensures createdAt == f.createdAt && isAccepted == f.isAccepted
    {
      this.id, this.question, teacher, answerText := id, question, f.teacher, f.answerText;
      attachment, createdAt, isAccepted := f.attachment, f.createdAt, f.isAccepted;
    }
  }

  /** A media row attached to a question. The file is represented by its size. */
  datatype QuestionMedia = QuestionMedia(question: QuestionId, size: nat, fileType: QuestionMediaType, uploadedAt: Timestamp)
}
