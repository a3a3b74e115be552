/** academics/views.py: who sees which questions and answers, which permission
    classes guard each action, and the question lifecycle
    pending -> assigned -> answered / closed driven by the actions assign,
    update_status, answering (perform_create of answers) and accept_answer. */
module AcademicViews {
  import opened Common
  import opened Users
  import opened Permissions
  import opened AcademicModels
  import opened AcademicSerializers

  // ---------------------------------------------------------------- visibility

  /** Membership in AcademicQuestionViewSet.get_queryset: staff and the admin
      role see every question; a teacher sees the questions assigned to them
      and the unassigned pending ones; a student sees their own; any other
      user sees none. */
  predicate CanSeeQuestion(u: User, q: QuestionState) {
    if u.isStaff || u.role == Admin then true
    else if u.role == Teacher then q.teacher == Some(u.id) || (q.teacher.None? && q.status == Pending)
    else if u.role == Student then q.student == u.id
    else false
  }

  /** AcademicQuestionViewSet.get_queryset over the question table. */
  function QuestionQueryset(u: User, all: set<Question>): (r: set<Question>)
    reads all
    ensures r <= all
    ensures u.isStaff || u.role == Admin ==> r == all
    ensures !u.isStaff && u.role == Teacher ==>
      r == (set q | q in all && q.teacher == Some(u.id)) + (set q | q in all && q.teacher.None? && q.status == Pending)
    ensures !u.isStaff && u.role == Student ==> r == set q | q in all && q.student == u.id
    ensures !u.isStaff && u.role == Technician ==> r == {}
  {
    set q | q in all && CanSeeQuestion(u, q.State())
  }

  /** Membership in AcademicAnswerViewSet.get_queryset, for an answer written
      by `answerTeacher` to a question asked by `questionStudent`. */
  predicate CanSeeAnswer(u: User, answerTeacher: UserId, questionStudent: UserId) {
    if u.isStaff || u.role == Admin then true
    else if u.role == Teacher then answerTeacher == u.id
    else if u.role == Student then questionStudent == u.id
    else false
  }

  /** AcademicAnswerViewSet.get_queryset over the answer table: staff and the
      admin role see every answer, a teacher the answers they wrote, a
      student the answers to their own questions, any other user none. */
  function AnswerQueryset(u: User, all: set<Answer>): (r: set<Answer>)
    ensures r <= all
    ensures u.isStaff || u.role == Admin ==> r == all
    ensures !u.isStaff && u.role == Teacher ==> r == set a | a in all && a.teacher == u.id
    ensures !u.isStaff && u.role == Student ==> r == set a | a in all && a.question.student == u.id
    ensures !u.isStaff && u.role == Technician ==> r == {}
  {
    set a | a in all && CanSeeAnswer(u, a.teacher, a.question.student)
  }

  /** accept_answer reaches its answer through get_object, so through the
      listing: a (non-staff) student may accept every answer they can reach,
      and a (non-staff) teacher can accept none unless they asked the
      question themselves. */
  lemma ListedAnswerAcceptance(u: User, all: set<Answer>, a: Answer)
    requires a in AnswerQueryset(u, all)
    ensures CanSeeAnswer(u, a.teacher, a.question.student)
    ensures !u.isStaff && u.role == Student ==> AcceptStep(a.question.State(), u).Ok?
    ensures !u.isStaff && u.role == Teacher ==>
      (AcceptStep(a.question.State(), u).Ok? <==> a.question.student == a.teacher)
  {
  }

  /** Membership in AcademicQuestionMediaViewSet.get_queryset: media of the
      questions the user asked or is assigned to. */
  predicate CanSeeQuestionMedia(u: User, q: QuestionState) {
    q.student == u.id || q.teacher == Some(u.id)
  }

  /** AcademicQuestionMediaViewSet.get_queryset over the media table, where
      `questionOf` gives the state of each medium's question. */
  function QuestionMediaQueryset(u: User, all: set<QuestionMedia>, questionOf: map<QuestionId, QuestionState>): (r: set<QuestionMedia>)
    ensures r <= all
    ensures forall m :: m in r <==>
      (m in all && m.question in questionOf &&
       (questionOf[m.question].student == u.id || questionOf[m.question].teacher == Some(u.id)))
  {
    set m | m in all && m.question in questionOf && CanSeeQuestionMedia(u, questionOf[m.question])
  }

  // --------------------------------------------------------------- permissions

  /** AcademicQuestionViewSet.get_permissions */
  function QuestionPermissions(a: Action): (r: seq<PermissionClass>)
    ensures |r| > 0 && r[0] == IsAuthenticated
    ensures forall u :: Admits(r, Some(u)) <==>
      (a == Create ==> u.role == Student) &&
      (a == Named("assign") || a == Named("update_status") ==> u.role == Teacher) &&
      (a == Update || a == PartialUpdate || a == Destroy ==> u.isStaff)
  {
    AdmitsAuthenticatedThen(IsStudent);
    AdmitsAuthenticatedThen(IsTeacher);
    AdmitsAuthenticatedThen(IsAdminUser);
    if a == Create then [IsAuthenticated, IsStudent]
    else if a == Named("assign") || a == Named("update_status") then [IsAuthenticated, IsTeacher]
    else if a == Update || a == PartialUpdate || a == Destroy then [IsAuthenticated, IsAdminUser]
    else [IsAuthenticated]
  }

  // ----------------------------------------------------- lifecycle, as values

  /** assign: only an unassigned, pending question can be claimed; the
      claimant becomes its teacher and it becomes assigned. */
  function AssignStep(q: QuestionState, requester: User): (r: Result<QuestionState>)
    ensures r.Ok? <==> q.teacher.None? && q.status == Pending
    ensures r.Ok? ==> r.value == QuestionState(q.student, Some(requester.id), Assigned)
    ensures r.Err? ==> r.error == (if q.teacher.Some? then AlreadyAssigned else NotPending)
  {
    if q.teacher.Some? then Err(AlreadyAssigned)
    else if q.status != Pending then Err(NotPending)
    else Ok(q.(teacher := Some(requester.id), status := Assigned))
  }

  /** update_status: only the assigned teacher may change the status, and
      only to answered or closed; the current status is not consulted.
      `requested` is None when the request carries no status or one that
      names no status at all. */
  function UpdateStatusStep(q: QuestionState, requester: User, requested: Option<QuestionStatus>): (r: Result<QuestionState>)
    ensures r.Ok? <==> q.teacher == Some(requester.id) && requested in {Some(Answered), Some(Closed)}
    ensures r.Ok? ==> r.value == q.(status := requested.value)
    ensures q.teacher != Some(requester.id) ==> r == Err(NotAssignedToYou)
    ensures q.teacher == Some(requester.id) && r.Err? ==> r.error == InvalidStatus
  {
    if q.teacher != Some(requester.id) then Err(NotAssignedToYou)
    else if requested != Some(Answered) && requested != Some(Closed) then Err(InvalidStatus)
    else Ok(q.(status := requested.value))
  }

  /** AcademicAnswerViewSet.perform_create, as seen by the question: only its
      assigned teacher may answer; answering an assigned question makes it
      answered, and any other status stays as it was. */
  function AnswerStep(q: QuestionState, requester: User): (r: Result<QuestionState>)
    ensures r.Ok? <==> q.teacher == Some(requester.id)
    ensures r.Err? ==> r.error == PermissionDenied
    ensures r.Ok? ==> r.value.student == q.student && r.value.teacher == q.teacher
    ensures r.Ok? && q.status == Assigned ==> r.value.status == Answered
    ensures r.Ok? && q.status != Assigned ==> r.value.status == q.status
  {
    if q.teacher != Some(requester.id) then Err(PermissionDenied)
    else if q.status == Assigned then Ok(q.(status := Answered))
    else Ok(q)
  }

  /** What an answering request leaves behind: the stored question state,
      the response, and the amount added to the teacher's earnings. */
  datatype AnswerAttempt = AnswerAttempt(stored: QuestionState, response: Outcome, credited: Cents)

  /** AcademicAnswerViewSet.perform_create as written. The answer is saved and
      an assigned question is moved to answered before the earnings line,
      which adds float(session_fee) to the Decimal total_earnings and so
      raises TypeError whenever the fee is truthy and the teacher has a
      profile. The request then fails, what was saved stays saved, and the
      earnings never grow. */
  function AnswerAsWritten(q: QuestionState, requester: User, fee: Option<Cents>, hasProfile: bool): (a: AnswerAttempt)
    ensures a.credited == 0
    ensures AnswerStep(q, requester).Err? ==> a == AnswerAttempt(q, Rejected(PermissionDenied), 0)
    ensures AnswerStep(q, requester).Ok? ==> a.stored == AnswerStep(q, requester).value
    ensures AnswerStep(q, requester).Ok? ==> (a.response.Rejected? <==> TruthyAmount(fee) && hasProfile)
    ensures AnswerStep(q, requester).Ok? && a.response.Rejected? ==> a.response.error == UnsupportedOperand
  {
    match AnswerStep(q, requester)
    case Err(e) => AnswerAttempt(q, Rejected(e), 0)
    case Ok(q') => AnswerAttempt(q', if TruthyAmount(fee) && hasProfile then Rejected(UnsupportedOperand) else Done, 0)
  }

  /** As written, a teacher with a profile who answers a question with a
      session fee gets an error, yet the question is answered and the
      teacher earns nothing; AnswerQuestion credits the fee as intended. */
  lemma FeeAnswerFailsAfterSaving(q: QuestionState, t: User, fee: Option<Cents>)
    requires q.teacher == Some(t.id) && q.status == Assigned && TruthyAmount(fee)
    ensures AnswerAsWritten(q, t, fee, true) == AnswerAttempt(q.(status := Answered), Rejected(UnsupportedOperand), 0)
    ensures AnswerAsWritten(q, t, fee, false) == AnswerAttempt(q.(status := Answered), Done, 0)
  {
  }

  /** accept_answer, as seen by the question: only the student who asked it
      may accept an answer, which closes the question. */
  function AcceptStep(q: QuestionState, requester: User): (r: Result<QuestionState>)
    ensures r.Ok? <==> q.student == requester.id
    ensures r.Err? ==> r.error == NotQuestionStudent
    ensures r.Ok? ==> r.value == q.(status := Closed)
  {
    if q.student != requester.id then Err(NotQuestionStudent) else Ok(q.(status := Closed))
  }

  /** AcademicQuestionMediaViewSet.perform_create, after the serializer has
      validated the file: only the question's student or its assigned teacher
      may attach media. The file check comes first (is_valid runs before
      perform_create). */
  function AddQuestionMedia(qid: QuestionId, q: QuestionState, requester: User, size: nat, fileType: QuestionMediaType, now: Timestamp): (r: Result<QuestionMedia>)
    ensures r.Ok? <==> size <= MaxQuestionMediaSize && (q.student == requester.id || q.teacher == Some(requester.id))
    ensures size > MaxQuestionMediaSize ==> r == Err(FileTooLarge)
    ensures size <= MaxQuestionMediaSize && r.Err? ==> r.error == PermissionDenied
    ensures r.Ok? ==> r.value == QuestionMedia(qid, size, fileType, now)
  {
    var file := ValidateQuestionMediaFile(size);
    if file.Err? then Err(file.error)
    else if !CanSeeQuestionMedia(requester, q) then Err(PermissionDenied)
    else Ok(QuestionMedia(qid, size, fileType, now))
  }

  /** Whoever may attach a medium to a question sees it in the media listing
      afterwards, and someone who is neither the question's student nor its
      teacher neither attaches nor lists media of it. */
  lemma AttachedMediaListed(qid: QuestionId, q: QuestionState, requester: User, size: nat, fileType: QuestionMediaType, now: Timestamp,
                            all: set<QuestionMedia>, questionOf: map<QuestionId, QuestionState>)
    requires qid in questionOf && questionOf[qid] == q
    ensures var r := AddQuestionMedia(qid, q, requester, size, fileType, now);
      r.Ok? && r.value in all ==> r.value in QuestionMediaQueryset(requester, all, questionOf)
    ensures !CanSeeQuestionMedia(requester, q) ==>
      AddQuestionMedia(qid, q, requester, size, fileType, now).Err? &&
      forall m :: m in all && m.question == qid ==> m !in QuestionMediaQueryset(requester, all, questionOf)
  {
  }

  // ------------------------------------------------ lifecycle, on the objects

  /** assign, on the question fetched through get_object (so visible to the
      requester). A rejection leaves the question as it was. */
  method Assign(q: Question, requester: User) returns (r: Outcome)
    requires CanSeeQuestion(requester, q.State())
    modifies q`teacher, q`status
    ensures r.Done? <==> AssignStep(old(q.State()), requester).Ok?
    ensures r.Done? ==> q.State() == AssignStep(old(q.State()), requester).value
    ensures r.Done? ==> q.teacher == Some(requester.id) && q.status == Assigned
    ensures r.Rejected? ==> r.error == AssignStep(old(q.State()), requester).error
    ensures r.Rejected? ==> q.teacher == old(q.teacher) && q.status == old(q.status)
  {
    if q.teacher.Some? {
      return Rejected(AlreadyAssigned);
    }
    if q.status != Pending {
      return Rejected(NotPending);
    }
    q.teacher := Some(requester.id);
    q.status := Assigned;
    r := Done;
  }

  /** update_status, on the question fetched through get_object. */
  method UpdateStatus(q: Question, requester: User, requested: Option<QuestionStatus>) returns (r: Outcome)
    requires CanSeeQuestion(requester, q.State())
    modifies q`status
    ensures r.Done? <==> UpdateStatusStep(old(q.State()), requester, requested).Ok?
    ensures r.Done? ==> q.State() == UpdateStatusStep(old(q.State()), requester, requested).value
    ensures r.Rejected? ==> r.error == UpdateStatusStep(old(q.State()), requester, requested).error
    ensures r.Rejected? ==> q.status == old(q.status)
  {
    if q.teacher != Some(requester.id) {
      return Rejected(NotAssignedToYou);
    }
    if requested != Some(Answered) && requested != Some(Closed) {
      return Rejected(InvalidStatus);
    }
    q.status := requested.value;
    r := Done;
  }

  /** AcademicAnswerViewSet.perform_create, with the earnings update as
      intended (AnswerAsWritten gives the source's TypeError): `q` is the
      question the submission names, looked up in the whole table; only its
      assigned teacher may answer. The answer is saved with the requester as
      teacher, an assigned question becomes answered, and a truthy session
      fee is added to the teacher's earnings when the teacher has a
      profile. */
  method AnswerQuestion(q: Question, requester: User, s: AnswerSubmission, id: AnswerId, now: Timestamp, users: UserStore)
    returns (r: Result<Answer>)
    requires s.question == q.id
    requires users.Valid()
    modifies q`status, users`profiles
    ensures users.Valid()
    ensures r.Ok? <==> AnswerStep(old(q.State()), requester).Ok?
    ensures r.Ok? ==> fresh(r.value) && r.value.question == q && r.value.id == id
    ensures r.Ok? ==> r.value.question.id == s.question
    ensures r.Ok? ==> r.value.teacher == requester.id && !r.value.isAccepted && r.value.createdAt == now
    ensures r.Ok? ==> r.value.answerText == s.answerText && r.value.attachment == s.attachment
    ensures r.Ok? ==> q.State() == AnswerStep(old(q.State()), requester).value
    ensures r.Ok? && TruthyAmount(q.sessionFee) && requester.id in old(users.profiles) ==>
      users.profiles == old(users.profiles)[requester.id :=
        old(users.profiles)[requester.id].(totalEarnings := old(users.profiles)[requester.id].totalEarnings + q.sessionFee.value)]
    ensures r.Ok? && !(TruthyAmount(q.sessionFee) && requester.id in old(users.profiles)) ==> users.profiles == old(users.profiles)
    ensures r.Err? ==> r.error == PermissionDenied && q.status == old(q.status) && users.profiles == old(users.profiles)
  {
    if q.teacher != Some(requester.id) {
      return Err(PermissionDenied);
    }
    var answer := new Answer(id, q, NewAnswer(s, requester, now));
    if q.status == Assigned {
      q.status := Answered;
    }
    if TruthyAmount(q.sessionFee) && users.HasProfile(answer.teacher) {
      users.AddEarnings(answer.teacher, q.sessionFee.value);
    }
    r := Ok(answer);
  }

  /** accept_answer, on an answer fetched through get_object: only the
      question's student may accept; the answer becomes accepted and the
      question closed. A rejection changes neither. */
  method AcceptAnswer(a: Answer, requester: User) returns (r: Outcome)
    requires CanSeeAnswer(requester, a.teacher, a.question.student)
    modifies a`isAccepted, a.question`status
    ensures r.Done? <==> AcceptStep(old(a.question.State()), requester).Ok?
    ensures r.Done? ==> a.isAccepted && a.question.State() == AcceptStep(old(a.question.State()), requester).value
    ensures r.Rejected? ==> r.error == NotQuestionStudent
    ensures r.Rejected? ==> a.isAccepted == old(a.isAccepted) && a.question.status == old(a.question.status)
  {
    if a.question.student != requester.id {
      return Rejected(NotQuestionStudent);
    }
    a.isAccepted := true;
    var question := a.question;
    question.status := Closed;
    r := Done;
  }

  // ---------------------------------------------------- sequences of actions

  /** A lifecycle action on one question by one requester. */
  datatype QuestionEvent =
    | AssignBy(actor: User)
    | UpdateStatusBy(actor: User, requested: Option<QuestionStatus>)
    | AnswerBy(actor: User)
    | AcceptBy(actor: User)

  /** The stored question state after one action; a rejected action leaves
      it as it was. */
  function Apply(q: QuestionState, e: QuestionEvent): QuestionState {
    var r := match e
      case AssignBy(u) => AssignStep(q, u)
      case UpdateStatusBy(u, s) => UpdateStatusStep(q, u, s)
      case AnswerBy(u) => AnswerStep(q, u)
      case AcceptBy(u) => AcceptStep(q, u);
    if r.Ok? then r.value else q
  }

  /** The stored question state after a sequence of actions. */
  function Run(q: QuestionState, es: seq<QuestionEvent>): QuestionState
    decreases |es|
  {
    if es == [] then q else Run(Apply(q, es[0]), es[1..])
  }

  /** Once a question has a teacher, no sequence of lifecycle actions gives it
      another one or takes it away, and its student never changes. */
  lemma {:induction false} TeacherKeptOnceAssigned(q: QuestionState, es: seq<QuestionEvent>)
    requires q.teacher.Some?
    ensures Run(q, es).teacher == q.teacher
    ensures Run(q, es).student == q.student
    decreases |es|
  {
    if es != [] {
      TeacherKeptOnceAssigned(Apply(q, es[0]), es[1..]);
    }
  }

  /** A question that has left `pending` never returns to it through the
      lifecycle actions. */
  lemma {:induction false} NeverBackToPending(q: QuestionState, es: seq<QuestionEvent>)
    requires q.status != Pending
    ensures Run(q, es).status != Pending
    decreases |es|
  {
    if es != [] {
      NeverBackToPending(Apply(q, es[0]), es[1..]);
    }
  }

  /** Whatever happens, the student of a question stays the same, and a
      question is claimed at most once: if it ends with a teacher it did
      not start with, it started unassigned. */
  lemma {:induction false} ClaimedAtMostOnce(q: QuestionState, es: seq<QuestionEvent>)
    ensures Run(q, es).student == q.student
    ensures Run(q, es).teacher != q.teacher ==> q.teacher.None? && Run(q, es).teacher.Some?
    decreases |es|
  {
    if es != [] {
      var q1 := Apply(q, es[0]);
      ClaimedAtMostOnce(q1, es[1..]);
      if q1.teacher != q.teacher {
        TeacherKeptOnceAssigned(q1, es[1..]);
      }
    }
  }

  /** Of two teachers claiming the same pending question one after the
      other, the first wins and the second is told it is already assigned. */
  lemma FirstClaimWins(q: QuestionState, t1: User, t2: User)
    requires q.teacher.None? && q.status == Pending
    ensures Run(q, [AssignBy(t1), AssignBy(t2)]).teacher == Some(t1.id)
    ensures AssignStep(Apply(q, AssignBy(t1)), t2) == Err(AlreadyAssigned)
  {
    var q1 := Apply(q, AssignBy(t1));
    assert [AssignBy(t1), AssignBy(t2)][1..] == [AssignBy(t2)];
    assert Run(q, [AssignBy(t1), AssignBy(t2)]) == Run(q1, [AssignBy(t2)]);
    assert [AssignBy(t2)][1..] == [];
    assert Run(q1, [AssignBy(t2)]) == Run(Apply(q1, AssignBy(t2)), []);
  }

  /** Claiming moves a question out of every other teacher's view and keeps
      it in the claimant's. */
  lemma AssignmentHidesFromOtherTeachers(q: QuestionState, t: User, other: User)
    requires AssignStep(q, t).Ok?
    requires other.role == Teacher && !other.isStaff && other.id != t.id
    ensures CanSeeQuestion(other, q)
    ensures !CanSeeQuestion(other, AssignStep(q, t).value)
    ensures t.role == Teacher ==> CanSeeQuestion(t, AssignStep(q, t).value)
  {
  }

  /** When the assigned teacher of an assigned question is deleted, the
      question keeps its status, so no teacher can see it, claim it, answer it
      or change its status any more. Accepting would pass the student check
      only for its student, but an assigned question has no answer to accept:
      answering moves it to answered, and the deleted teacher's answers are
      deleted with them. */
  lemma OrphanedQuestionIsStuck(q: QuestionState, deleted: UserId, u: User)
    requires q.status == Assigned && q.teacher == Some(deleted)
    ensures var q' := TeacherRemoved(q, deleted);
      && (u.role == Teacher && !u.isStaff ==> !CanSeeQuestion(u, q'))
      && AssignStep(q', u) == Err(NotPending)
      && UpdateStatusStep(q', u, Some(Answered)).Err?
      && AnswerStep(q', u).Err?
      && (AcceptStep(q', u).Ok? <==> u.id == q.student)
  {
  }

  /** update_status does not look at the current status: the assigned
      teacher can move a closed question back to answered. */
  lemma ClosedQuestionCanBeReopened(q: QuestionState, t: User)
    requires q.status == Closed && q.teacher == Some(t.id)
    ensures UpdateStatusStep(q, t, Some(Answered)) == Ok(q.(status := Answered))
  {
  }
}
