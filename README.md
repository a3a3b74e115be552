# Tech Tutor Connect Hub backend, modelled in Dafny

The system is the REST and WebSocket backend of a campus help desk. Students
post academic questions that teachers claim and answer, and device repair
requests that technicians claim and complete. Teachers and technicians earn
the session fee or the final cost. Participants talk in chat rooms, in real
time over a WebSocket. Educational resources are shared by category. Users
rate each other and have a dashboard with their average rating and completed
work.

The model has one Dafny module per core source file:

- models: `AcademicModels`, `RepairModels`, `ChatModels`, `ResourceModels`, `Users`;
- serializers: `AcademicSerializers`, `RepairSerializers`, `ChatSerializers`, `ResourceSerializers`, `UserSerializers`;
- views and consumer: `AcademicViews`, `RepairViews`, `ChatViews`, `ChatConsumers`, `ResourceViews`, `UserViews`;
- permission classes: `Permissions`;
- shared values: `Common` (errors, `Option`, `Result`, `Outcome`, money in cents, timestamps, Python truthiness of optional text and amounts, and `str.strip()`, which DRF applies to every text field).

Rows the source updates in place are classes with `modifies` frames:

- `Question` and `Answer`;
- `RepairRequest`;
- `Resource`;
- the user, profile and rating tables (`UserStore`);
- the chat room and message tables (`ChatStore`);
- the channel layer's groups (`ChannelLayer`) and one WebSocket connection (`ChatConsumer`).

Each view action has two parts. A pure step function works on a snapshot of
the row: who the student and the assignee are, the status, the final cost. A
method applies that step to the object, and its `ensures` ties the new state
to the step. Lemmas over sequences of lifecycle actions (`Run`) state what
those actions guarantee. For questions the actions are assign, update_status,
answering and accept_answer; for repair requests they are assign and
update_status. Through these actions alone:

- an assignee, once set, is never replaced;
- a claimed row never returns to pending;
- the first of two claims wins;
- a final cost appears only through a completion with a truthy amount.

Staff may also edit a row directly through the generic update and
partial_update, and deleting the assignee nulls the link. Neither is one of
these actions, so the guarantees do not cover them (see "## Left out").

`get_object()` looks up the target in `get_queryset()`. This appears as a
`requires` that the target is visible to the requester. The error returned
for a target that is not visible ("not found") is left to the queryset
functions.

The code has several notable behaviours. The model proves each of them as it
is written:

- The role `admin` carries no privilege. Only `is_staff` passes the `IsAdminUser` class.
- A self-registered `admin` still sees every question and repair request, because the querysets test the role.
- The rating endpoint is guarded by `IsAuthenticated` alone. With `?user=<id>`, any user reaches, and may update or destroy, every rating that `<id>` received.
- `update_status` does not look at the current status. A closed question can be reopened as answered, and a completed repair can be completed again; with the intended earnings update this credits the technician a second time.
- The earnings updates add a `float` to the `Decimal` total earnings, which raises `TypeError`. As written, a technician with a profile can never complete a repair, and a teacher's answer to a question with a fee is saved but the request fails and nothing is credited (see "## Findings").
- A question whose teacher is deleted keeps the status `assigned` with no teacher. No one can claim it or change its status any more.
- The room serializer counts the submitted `participant_ids`, duplicates included, before the creator is added. So `[B]` submitted by A is rejected, and `[A, A]` submitted by A creates a room with one participant.
- The consumer checks membership only in `connect`. An open connection's messages are saved even after the user has left the room, and the WebSocket frame has no error reply.

## Model

| member | source | states |
|---|---|---|
| Users.SetDefault | users/models.py:24-25 | a flag passed in keeps its value; a missing one takes the default |
| Users.RegularUserFields | users/models.py:22-26 | create_user: staff and superuser flags are true only when passed as True; name and role untouched |
| Users.SuperuserFields | users/models.py:28-36 | accepted iff neither flag is passed as False; then both are True; SuperuserNeedsStaff is reported before SuperuserNeedsSuperuser |
| Users.SetPassword | users/models.py:17-18 | no password gives an unusable credential; a password its hash |
| Users.BuildUser | users/models.py:12-18 | refused with EmailRequired iff the email is empty; otherwise the row has that email, name, default role student, the given flags and the password credential |
| Users.UserStore.constructor | users/models.py:41-57 | empty user, profile and rating tables satisfying the table invariant |
| Users.UserStore.CreateUserRow | users/models.py:12-20 | saves exactly one new row with a fresh id iff the email is non-empty and unused; EmailRequired / DuplicateEmail otherwise, with nothing changed; email uniqueness kept |
| Users.UserStore.CreateUser | users/models.py:22-26 | as CreateUserRow, with staff/superuser true only when passed as True |
| Users.UserStore.CreateSuperuser | users/models.py:12-38 | succeeds iff the flags allow it and the email is new; the users map gains exactly the row built from the email, the hashed password and the superuser fields; each refusal returns its error (the flag errors first, then EmailRequired, then DuplicateEmail) with nothing changed |
| Users.UserStore.ObjectsCreate | users/serializers.py:31 | a new row with both flags false, a blank password and the default role when none is given |
| Users.UserStore.SaveUser | users/serializers.py:54 | replaces exactly that user's row; email uniqueness kept |
| Users.UserStore.SavePassword | users/serializers.py:32-34 | only that user's credential changes, to the hash of the password; email uniqueness kept |
| Users.UserStore.SaveProfile | users/serializers.py:36-39 | replaces or creates exactly that user's profile |
| Users.UserStore.AddRating | users/models.py:80-90 | appends one rating; the 1..5 choice and the (user, rated_by) uniqueness stay true of the table |
| Users.UserStore.AddEarnings | users/models.py:74 | adds the amount to that user's total earnings when a profile exists, and changes nothing else |
| Common.StripStartShape | users/serializers.py:66-67 | StripStart cuts exactly the leading whitespace |
| Common.StripEndShape | users/serializers.py:66-67 | StripEnd cuts exactly the trailing whitespace |
| Common.StripShape | users/serializers.py:66-67 | the trimmed text is the slice between the leading and the trailing whitespace, and neither starts nor ends with whitespace |
| Common.StripBlank | users/serializers.py:66-67 | a text is blank once trimmed iff it is all whitespace |
| Common.StripIdempotent | users/serializers.py:66-67 | trimming twice is trimming once |
| Permissions.AdmitsAuthenticatedThen | academics/views.py:33-47 | after IsAuthenticated, an authenticated user passes a permission list exactly when the second class admits them |
| Permissions.OwnerCheckSingleWriter | users/permissions.py:10-16 | safe methods always pass; a write passes iff the requester owns the row, so two writers of one row are the same user |
| Permissions.SameUserCheckOnlySelf | users/permissions.py:24-30 | safe methods always pass; a write passes iff the object is the requester |
| Permissions.AdminRoleAloneIsNotAdminUser | users/permissions.py:38-39 | IsAdminUser admits exactly the staff users; a user with role admin need not pass |
| Permissions.RoleClassesExclusive | users/permissions.py:47-66 | no user passes two of IsTeacher, IsTechnician, IsStudent |
| Permissions.AnonymousRefused | users/permissions.py:38-66 | a permission list starting with IsAuthenticated refuses every anonymous request |
| AcademicModels.Question.constructor | academics/models.py:29-47 | the new row holds the submitted fields and the creation time |
| AcademicModels.Question.TeacherDeleted | academics/models.py:36-42 | deleting the assigned teacher sets teacher to null and keeps status and student |
| AcademicModels.TeacherRemoved | academics/models.py:36-42 | teacher becomes null iff it was the deleted user; student and status unchanged |
| AcademicModels.Answer.constructor | academics/models.py:70-80 | the new answer holds its question, teacher, text, attachment, time and acceptance flag |
| AcademicSerializers.ValidateQuestionMediaFile | academics/serializers.py:12-16 | accepted iff the size is at most 10 MiB, else FileTooLarge |
| AcademicSerializers.NewAnswer | academics/serializers.py:26-30 | the answer's teacher is the requester, not yet accepted, with the submitted text and attachment |
| AcademicSerializers.NewQuestion | academics/serializers.py:46-50 | the question's student is the requester; status defaults to pending; other fields as submitted |
| AcademicSerializers.ReadOnlyFieldsIgnored | academics/serializers.py:26 | the read-only teacher, acceptance and time of an answer submission have no effect |
| AcademicViews.QuestionQueryset | academics/views.py:19-31 | staff and role admin see all; teachers see pending or their own; students their own; technicians none |
| AcademicViews.AnswerQueryset | academics/views.py:134-146 | staff and role admin see all answers; teachers the answers they wrote; students the answers to their own questions; technicians none |
| AcademicViews.ListedAnswerAcceptance | academics/views.py:134-146 | an answer reached through the listing is one the requester may see; a student may accept every answer they reach; a teacher only one to a question they asked |
| AcademicViews.QuestionMediaQueryset | academics/views.py:107-112 | a medium is listed iff its question's student or assigned teacher is the user |
| AcademicViews.AttachedMediaListed | academics/views.py:107-127 | a medium the requester may attach is listed for them; someone who is neither student nor teacher cannot attach and lists none of that question's media |
| AcademicViews.QuestionPermissions | academics/views.py:33-47 | create only by students, assign and update_status only by teachers, update and destroy only by staff, the rest by any authenticated user |
| AcademicViews.AssignStep | academics/views.py:54-68 | succeeds iff unassigned and pending, then assigned to the requester; AlreadyAssigned before NotPending |
| AcademicViews.UpdateStatusStep | academics/views.py:80-96 | succeeds iff the requester is the teacher and the status is answered or closed; NotAssignedToYou before InvalidStatus |
| AcademicViews.AnswerStep | academics/views.py:155-165 | only the assigned teacher may answer; an assigned question becomes answered, any other status is kept |
| AcademicViews.AcceptStep | academics/views.py:179-192 | only the question's student may accept; the question becomes closed |
| AcademicViews.AnswerAsWritten | academics/views.py:160-171 | as written: the assigned teacher's answer is saved and an assigned question becomes answered; then a truthy fee with a profile makes the request fail; nothing is ever credited; anyone else is refused |
| AcademicViews.FeeAnswerFailsAfterSaving | academics/views.py:163-171 | answering an assigned question with a fee leaves it answered but fails and credits nothing when the teacher has a profile |
| AcademicViews.AddQuestionMedia | academics/views.py:115-127 | a file within 10 MiB is attached iff the requester is the student or the teacher; FileTooLarge first |
| AcademicViews.Assign | academics/views.py:50-73 | the question's new state is AssignStep's; a rejection changes nothing |
| AcademicViews.UpdateStatus | academics/views.py:76-101 | the question's new state is UpdateStatusStep's; a rejection keeps the status |
| AcademicViews.AnswerQuestion | academics/views.py:148-171 | the question is the one the submission names; a new answer by the requester iff AnswerStep allows; with the earnings update as intended, the teacher earns a truthy session fee when they have a profile (the source raises there, see AnswerAsWritten) |
| AcademicViews.AcceptAnswer | academics/views.py:174-197 | the answer is accepted and the question closed iff the requester is its student |
| AcademicViews.TeacherKeptOnceAssigned | academics/views.py:54-68 | no sequence of lifecycle actions (assign, update_status, answering, accept_answer) replaces an assigned teacher or the student |
| AcademicViews.NeverBackToPending | academics/views.py:86-95 | through the lifecycle actions, a question that is not pending never becomes pending again |
| AcademicViews.ClaimedAtMostOnce | academics/views.py:54-66 | through the lifecycle actions, the teacher changes only from none to some, and the student never |
| AcademicViews.FirstClaimWins | academics/views.py:54-58 | of two claims of a pending question the first wins and the second gets AlreadyAssigned |
| AcademicViews.AssignmentHidesFromOtherTeachers | academics/views.py:25-26 | after a claim, other non-staff teachers no longer see the question; the claimer does |
| AcademicViews.OrphanedQuestionIsStuck | academics/models.py:36-42 | an assigned question whose teacher is deleted can no longer be seen by teachers, claimed, answered or have its status updated; the accept check would admit only its student |
| AcademicViews.ClosedQuestionCanBeReopened | academics/views.py:80-95 | the assigned teacher may set a closed question back to answered |
| RepairModels.RepairRequest.constructor | repairs/models.py:26-46 | the new row holds the submitted fields and the creation time |
| RepairModels.RepairRequest.TechnicianDeleted | repairs/models.py:33-39 | deleting the assigned technician sets it to null and keeps the rest of the state |
| RepairModels.TechnicianRemoved | repairs/models.py:33-39 | technician becomes null iff it was the deleted user; student, status and final cost unchanged |
| RepairSerializers.ValidateRepairMediaFile | repairs/serializers.py:12-16 | accepted iff the size is at most 10 MiB, else FileTooLarge |
| RepairSerializers.NewComment | repairs/serializers.py:28-30 | the comment's author is the requester, with the submitted text and request |
| RepairSerializers.NewRepair | repairs/serializers.py:49-51 | the request's student is the requester; status defaults to pending; other fields as submitted |
| RepairSerializers.RepairReadOnlyFieldsIgnored | repairs/serializers.py:26 | the read-only author, time and student of a submission have no effect |
| RepairViews.RepairQueryset | repairs/views.py:19-31 | staff and role admin see all; technicians see pending or their own; students their own; teachers none |
| RepairViews.RepairPermissions | repairs/views.py:33-47 | create only by students, assign and update_status only by technicians, update and destroy only by staff, the rest by any authenticated user |
| RepairViews.AssignStep | repairs/views.py:54-68 | succeeds iff unassigned and pending, then assigned to the requester; AlreadyAssigned before NotPending |
| RepairViews.UpdateStatusStep | repairs/views.py:80-105 | succeeds iff the requester is the technician, the status is in_progress/completed/cancelled and a completion has a truthy final cost; only a completion sets the final cost |
| RepairViews.EarningsAdded | repairs/views.py:108-111 | with the earnings update as intended, earnings grow by the final cost on completion and by nothing otherwise (the source raises there, see UpdateStatusAsWritten) |
| RepairViews.UpdateStatusAsWritten | repairs/views.py:98-113 | as written: a completion by a technician with a profile fails with the TypeError before anything is saved; every other request ends as UpdateStatusStep says |
| RepairViews.CompletionWithProfileFailsAsWritten | repairs/views.py:108-113 | for any truthy final cost, a technician with a profile cannot complete as written, while the corrected step records the cost and credits it |
| RepairViews.AddRepairMedia | repairs/views.py:132-144 | a file within 10 MiB is attached iff the requester is the student or the technician; FileTooLarge first |
| RepairViews.AddComment | repairs/views.py:158-170 | a comment on the request named by repair_request, by the requester, iff they are its student or its technician |
| RepairViews.Assign | repairs/views.py:50-73 | the request's new state is AssignStep's; a rejection changes nothing |
| RepairViews.UpdateStatus | repairs/views.py:76-118 | the new state is UpdateStatusStep's; with the earnings update as intended, a completion credits the final cost to the technician's profile; a rejection changes nothing |
| RepairViews.TechnicianKeptOnceAssigned | repairs/views.py:54-68 | no sequence of lifecycle actions (assign, update_status) replaces an assigned technician or the student |
| RepairViews.RepairNeverBackToPending | repairs/views.py:86-95 | through the lifecycle actions, a request that is not pending never becomes pending again |
| RepairViews.FinalCostOnlyFromCompletion | repairs/views.py:98-105 | through the lifecycle actions, a final cost other than the initial one is always truthy, and a completed request has one |
| RepairViews.FirstRepairClaimWins | repairs/views.py:54-58 | of two claims of a pending request the first wins and the second gets AlreadyAssigned |
| RepairViews.RepairAssignmentHidesFromOtherTechnicians | repairs/views.py:25-26 | after a claim, other non-staff technicians no longer see the request; the claimer does |
| RepairViews.CompletedRepairCanBeUpdatedAgain | repairs/views.py:80-111 | a completed request can be completed again with a new truthy cost, which the intended earnings update credits again, or moved back to in_progress |
| RepairViews.NonCompletionKeepsFinalCost | repairs/views.py:95-105 | a status other than completed never changes the final cost |
| ChatModels.WithoutRoom | chat/models.py:36 | deleting a room's messages never adds any |
| ChatModels.WithoutRoomMembers | chat/models.py:36 | the messages left are exactly those of other rooms |
| ChatModels.WithoutRoomKeepsBound | chat/models.py:36 | the messages left keep their ids below the next id |
| ChatModels.WithoutRoomKeepsIds | chat/models.py:36 | the messages left stay in increasing id order |
| ChatModels.ChatStore.constructor | chat/models.py:15-44 | empty room and message tables satisfying the table invariant |
| ChatModels.ChatStore.CreateRoom | chat/serializers.py:39 | adds exactly one room under a fresh id |
| ChatModels.ChatStore.AppendMessage | chat/models.py:34-44 | appends one message with an id above every earlier one |
| ChatModels.ChatStore.SetRead | chat/views.py:83-84 | sets is_read on that one message only |
| ChatModels.ChatStore.AddToRoom | chat/views.py:47-48 | adds the user to that room's participants only |
| ChatModels.ChatStore.DeleteRoom | chat/models.py:36 | removes the room and, by cascade, exactly its messages |
| ChatSerializers.ValidateRoom | chat/serializers.py:30-35 | accepted iff every reference exists and at least two participant ids are submitted |
| ChatSerializers.ParticipantList | chat/serializers.py:42-46 | the creator is always a participant; the others are the submitted ones |
| ChatSerializers.SubmitRoom | chat/serializers.py:37-47 | a room is created iff validation passes, with the submitted participants plus the creator |
| ChatSerializers.CreatorAlwaysParticipant | chat/serializers.py:42-46 | a user is a participant iff they are the creator or were submitted |
| ChatSerializers.CountTakenBeforeCreatorAdded | chat/serializers.py:32-46 | `[A, A]` by A passes and gives a one-person room; `[B]` by A is rejected |
| ChatSerializers.PostMessage | chat/serializers.py:58-62 | a message in an existing room is appended with the requester as sender and the current time |
| ChatSerializers.ListMessage | chat/serializers.py:51-52 | a listed message carries the sender's name and role and all of its own fields |
| ChatViews.RoomQueryset | chat/views.py:18-20 | the rooms listed are exactly those the user participates in |
| ChatViews.MessageQueryset | chat/views.py:60-62 | every listed message lies in a room of the user |
| ChatViews.UnreadMessages | chat/views.py:65-74 | every listed message is unread, not the user's own, in a room of the user |
| ChatViews.MessageQuerysetMembers | chat/views.py:60-62 | the listed messages are exactly those in a room of the user |
| ChatViews.UnreadMembers | chat/views.py:67-71 | the unread listing is exactly the unread messages of others in the user's rooms |
| ChatViews.UnreadNarrowsQueryset | chat/views.py:67-71 | the unread listing is the message listing without read and own messages, in order |
| ChatViews.AddParticipant | chat/views.py:23-53 | UserIdRequired for a missing or zero id, UserDoesNotExist for an unknown one, otherwise the user joins the room |
| ChatViews.WithParticipant | chat/views.py:47-48 | the participants become the old ones plus the user; nothing else in the room changes |
| ChatViews.AddParticipantIdempotent | chat/views.py:47-48 | adding a participant twice is adding once; adding a member changes nothing |
| ChatViews.AddedParticipantSees | chat/views.py:18-20 | the added user now sees the room and its messages; what other users see is unchanged |
| ChatViews.MarkAsReadStep | chat/views.py:82-86 | succeeds iff the requester is in the room and not the sender, then the message is read |
| ChatViews.MarkAsRead | chat/views.py:77-86 | the message table changes exactly as MarkAsReadStep says; a rejection changes nothing |
| ChatViews.MarkAsReadFacts | chat/views.py:79-85 | within the room, marking fails only for the sender; a marked message leaves the unread listing |
| ChatConsumers.ChannelLayer.constructor | chat/consumers.py:17-20 | no groups yet |
| ChatConsumers.ChannelLayer.GroupAdd | chat/consumers.py:17-20 | the channel joins that group; other groups unchanged |
| ChatConsumers.ChannelLayer.GroupDiscard | chat/consumers.py:37-40 | the channel leaves that group; other groups unchanged |
| ChatConsumers.IsUserParticipant | chat/consumers.py:86-92 | true iff the room exists and has the user as participant |
| ChatConsumers.StoredAttachment | chat/consumers.py:102-103 | an attachment is stored iff it is truthy |
| ChatConsumers.EventFor | chat/consumers.py:59-70 | the event carries the saved message's id, text and time, the sender's details and the raw attachment |
| ChatConsumers.ChatMessage | chat/consumers.py:74-84 | the outbound frame holds exactly the event's seven fields |
| ChatConsumers.ChatConsumer.constructor | chat/consumers.py:11 | a connection not yet connected |
| ChatConsumers.ChatConsumer.Connect | chat/consumers.py:12-33 | the channel always joins the room group; the connection opens iff the user is authenticated and a participant |
| ChatConsumers.ChatConsumer.Disconnect | chat/consumers.py:35-40 | the channel leaves the room group; nothing else changes |
| ChatConsumers.ChatConsumer.Receive | chat/consumers.py:43-71 | a frame with a message in an existing room appends exactly one message and broadcasts its event to the group; otherwise nothing is saved |
| ChatConsumers.ChatConsumer.SavedMessage | chat/consumers.py:94-105 | the row saved has the room, the sender, the text, the truthy attachment, unread |
| ChatConsumers.OutboundFrameMatchesSavedMessage | chat/consumers.py:59-84 | what listeners receive agrees with the saved row |
| ChatConsumers.EmptyAttachmentBroadcastNotStored | chat/consumers.py:102-103 | an empty attachment is broadcast but not stored |
| ResourceModels.ParseResourceType | resources/models.py:22-28 | the five choices parse; any other text is invalid |
| ResourceModels.Resource.constructor | resources/models.py:30-46 | a new resource with the given fields and no views |
| ResourceSerializers.ValidateResourceFile | resources/serializers.py:29-43 | at most 100 MiB when the raw type is video and 20 MiB otherwise, with the matching error |
| ResourceSerializers.NewResource | resources/serializers.py:25-27 | accepted iff the file, the type and the category are valid; uploaded by the requester |
| ResourceSerializers.CreateResource | resources/serializers.py:23-27 | created iff NewResource accepts, else its error; the new resource carries the validated title, description, file size, thumbnail, type and category, is uploaded by the requester and has no views |
| ResourceSerializers.FileLimitBoundaries | resources/serializers.py:31-37 | both limits are inclusive and differ for a 50 MiB file |
| ResourceSerializers.ResourceReadOnlyFieldsIgnored | resources/serializers.py:23 | a submitted uploader or view count has no effect |
| ResourceViews.CategoryPermissions | resources/views.py:16-26 | writes to categories need staff; reads need only authentication |
| ResourceViews.ResourcePermissions | resources/views.py:40-51 | updates and deletes of resources need staff; create and reads need only authentication |
| ResourceViews.CreateGuardsDiffer | resources/views.py:47-50 | for a non-staff user the two viewsets differ exactly on create |
| ResourceViews.IncrementView | resources/views.py:53-59 | the view count grows by exactly one |
| ResourceViews.Featured | resources/views.py:61-71 | every listed resource is featured and in the table |
| ResourceViews.FeaturedComplete | resources/views.py:64 | every featured resource is listed |
| ResourceViews.FeaturedKeepsBound | resources/views.py:64 | filtering keeps a bound on the creation times |
| ResourceViews.FeaturedKeepsListingOrder | resources/models.py:45-46 | the featured listing stays newest first |
| UserSerializers.ApplyProfileAttr | users/serializers.py:58-59 | a profile attribute never changes total earnings; bio, phone number and expertise are saved trimmed |
| UserSerializers.ApplyProfileItems | users/serializers.py:58-59 | the profile after the setattr loop is the items applied in order, and its total earnings are unchanged |
| UserSerializers.ProfileAttrsKeepEarnings | users/serializers.py:12-13 | no profile update changes total earnings, which are read-only |
| UserSerializers.ApplyUserAttr | users/serializers.py:48-49 | a user attribute never touches id, flags or password; email and full name are saved trimmed, the role as given |
| UserSerializers.ApplyUserItems | users/serializers.py:48-49 | the user after the setattr loop is the items applied in order; id, flags and password are unchanged |
| UserSerializers.UserAttrsOnlySupplied | users/serializers.py:48-49 | only supplied fields change; the email ends as the old one or the trimmed text of a supplied one |
| UserSerializers.UpdatedUser | users/serializers.py:51-52 | the password changes iff a truthy one is given; id and flags stay |
| UserSerializers.FullUpdateNeedsRequiredFields | users/models.py:52-54 | a PUT of the role alone is refused with FieldRequired, and the same data as a PATCH is accepted |
| UserSerializers.UpdatedEmailFree | users/models.py:52 | an update whose supplied emails are free leaves the user with an email no other user has |
| UserSerializers.Update | users/serializers.py:43-62 | a full update (PUT) must supply email and full name, a partial one (PATCH) need not; every supplied email must be non-blank once trimmed and free, every name non-blank once trimmed; the error of the first failing field otherwise; the user row as UpdatedUser; the profile updated only when data is given and it exists |
| UserSerializers.SaveNewUser | users/serializers.py:31-41 | once the fields are valid: exactly one new user row with the given email, name and role, no flags, the password credential only when truthy, and exactly one profile from the items or the defaults |
| UserSerializers.Create | users/serializers.py:27-41 | one user and one profile are created iff the trimmed email is non-empty and new and the trimmed name non-blank; EmailRequired, DuplicateEmail, BlankField otherwise, with nothing changed; the row holds the trimmed email and name |
| UserSerializers.ValidateRegistration | users/serializers.py:65-76 | accepted iff the trimmed email, name and both passwords are non-blank, the email is new and the trimmed passwords match; each refusal in field order (EmailRequired, DuplicateEmail, BlankField, BlankPassword, PasswordsDoNotMatch) |
| UserSerializers.Cleaned | users/serializers.py:65-71 | validated_data holds every text field of the registration trimmed and the role as given |
| UserSerializers.RegistrationTrimsPasswords | users/serializers.py:66-76 | " pw " confirmed by "pw" is accepted and saved as the credential of "pw"; a password of spaces is blank |
| UserSerializers.Register | users/serializers.py:78-82 | a valid registration creates a non-staff user from the trimmed data, with the hash of the trimmed password, and a default profile; an invalid one changes neither table; the rating table never changes |
| UserSerializers.SelfRegisteredAdminSeesEveryCase | users/serializers.py:71 | a self-registered user with role admin sees every question and repair request |
| UserSerializers.ValidateRating | users/serializers.py:94-98 | accepted iff the target exists, the value is 1..5, the trimmed review non-blank, the target not the requester and not rated before; each refusal in that order |
| UserSerializers.SelfRatingCheckAsWritten | users/serializers.py:94-98 | as written: a missing `user` key fails; otherwise rejected iff the requester rates themself |
| UserSerializers.SelfRatingCheck | users/serializers.py:94-98 | rejected iff the submitted user, or the rating's current one when none is submitted, is the requester |
| UserSerializers.PartialRatingUpdateFails | users/serializers.py:96 | a partial update without `user` fails as written and passes when corrected |
| UserSerializers.SelfRatingChecksAgree | users/serializers.py:94-98 | when `user` is submitted both checks agree; the corrected one still refuses self-rating |
| UserSerializers.BlankReviewRefused | users/models.py:86 | a review of whitespace only is refused as blank |
| UserSerializers.Rate | users/serializers.py:100-102 | a valid rating is appended with the requester as rater and the trimmed review; an invalid one changes nothing |
| UserSerializers.NoSelfRating | users/serializers.py:96-97 | no user can rate themself |
| UserSerializers.ReceivedValues | users/serializers.py:117 | at most one value per rating |
| UserSerializers.AverageRating | users/serializers.py:116-120 | none without received ratings; otherwise the sum and count of the values received |
| UserSerializers.SumBounds | users/serializers.py:120 | a sum of values in lo..hi lies between lo and hi times the count |
| UserSerializers.ReceivedValuesFrom | users/serializers.py:117 | bounds on the values of the ratings the user received carry over to every received value |
| UserSerializers.AverageWithinRange | users/serializers.py:116-120 | the average of the ratings the user received lies within any bounds of those ratings' own values; other users' ratings play no part |
| UserSerializers.CountCompletedRepairs | users/serializers.py:125 | the count is at most the number of requests |
| UserSerializers.CompletedRepairs | users/serializers.py:122-126 | zero for non-technicians; the technician's completed requests otherwise |
| UserSerializers.CountCompletedRepairsUpdate | users/serializers.py:125 | replacing one request changes the count by that request's own contribution only |
| UserSerializers.CompletingRaisesCompletedRepairs | users/serializers.py:122-126 | completing a request not yet completed raises the technician's completed repairs by one; completing it again leaves the count |
| UserSerializers.CountAnswered | users/serializers.py:131 | the count is at most the number of questions |
| UserSerializers.CompletedSessions | users/serializers.py:128-132 | zero for non-teachers; the teacher's answered questions otherwise |
| UserSerializers.CountAnsweredUpdate | users/serializers.py:131 | changing one question changes the count by its own contribution only |
| UserSerializers.AcceptingLowersCompletedSessions | users/serializers.py:131 | accepting an answer closes the question and lowers the teacher's completed sessions by one |
| UserViews.SerializerClassFor | users/views.py:26-29 | the dashboard serializer iff the action is dashboard |
| UserViews.UserAccessRules | users/views.py:24 | any authenticated user reads any user; only the user themself writes; anonymous refused |
| UserViews.ProfileQueryset | users/views.py:43-44 | only the requester's own profile, when it exists |
| UserViews.ProfileReachOnlyOwn | users/views.py:41-44 | no request reaches another user's profile |
| UserViews.RatingQueryset | users/views.py:52-64 | never lists more ratings than the table has |
| UserViews.RatingQuerysetMembers | users/views.py:52-64 | the listed ratings are exactly the selected ones |
| UserViews.RatingSelectionBranches | users/views.py:53-64 | received, then given, then user, then staff-all, then received-or-given |
| UserViews.EveryRatingReachableByAnyUser | users/views.py:50-59 | with `?user=` any authenticated user reaches every rating of that user |

## Left out

- I/O, HTTP parsing, async execution and the channel layer's transport are not modelled. Each handler runs as one atomic call.
- Clocks are parameters (`now`). File contents are represented by their sizes. Uploaded paths are plain text.
- Money is integer cents, not floating point. The average rating is a sum and count pair, not the float quotient.
- Pagination, search, ordering filters and the `filterset_fields` are left out. Listings are in table order.
- Password hashing is a `Hashed(p)` constructor. `normalize_email` is not modelled. Email equality is plain text equality.
- DRF reports every failing field at once. The model reports the first in field order.
- DRF's `CharField` handling is modelled for email, full name, password, review and the profile's text fields: the text is trimmed as `str.strip()` does, the blank check is on the trimmed text, and the trimmed text is saved. Titles, descriptions, answer text, room names, message content and comment text are taken as submitted, with no trimming and no blank check.
- UserSerializers.Create, UserSerializers.Update, UserSerializers.ValidateRegistration, UserSerializers.Register: the email format check of `EmailField`, every `max_length` limit (255 for the full name, 254 for the email) and DRF's refusal of null characters are not modelled. So an address such as `abc` is accepted here and refused by the source.
- UserSerializers.Create: email and full name are always given. A missing one, a required-field error in DRF, is not represented.
- A missing `participant_ids` is a required-field error in DRF. The model reports it, like a too-short list, as TooFewParticipants.
- The `user` query parameter of the rating listing is taken as a number. A non-numeric value (a server error in the source) is left out.
- The final cost is an optional whole amount. A non-empty string such as `"0"` is truthy in the source and is left out.
- UserSerializers.Update, UserSerializers.Create: the password never reaches `validated_data`, since `password` is not in the serializer's `fields`. So in the source the `if password` branches are dead and a user created this way keeps an empty password. Both branches are modelled as written, with the password as a parameter; passing None gives the source's behaviour.
- RepairViews.UpdateStatus: an in-memory status change before the final-cost early return is left out, since it is never saved.
- `ResourceCategorySerializer`, `UserBasicSerializer` and the admin and url modules carry no behaviour and are left out.
- The `SET_NULL` links from chat rooms to repair requests and questions are left out. A room's links are kept as given.
- The group name `chat_<id>` is represented by the room id.
- AcademicViews.TeacherKeptOnceAssigned, AcademicViews.NeverBackToPending, AcademicViews.ClaimedAtMostOnce, RepairViews.TechnicianKeptOnceAssigned, RepairViews.RepairNeverBackToPending, RepairViews.FinalCostOnlyFromCompletion: these hold for the lifecycle actions only. Staff update and partial_update, which may write teacher, technician, status and final cost directly, and the `SET_NULL` on deleting the assignee are outside `Run`.
- AcademicViews.AnswerQuestion, RepairViews.UpdateStatus, RepairViews.EarningsAdded, RepairViews.CompletedRepairCanBeUpdatedAgain: the source raises `TypeError` at the earnings line (a `float` added to a `Decimal`). These members credit the amount, as evidently intended. The behaviour as written is AcademicViews.AnswerAsWritten and RepairViews.UpdateStatusAsWritten.
- ChatViews.AddParticipant: `user_id` is taken as a number. A string such as `"0"` is truthy in the source and gives "User does not exist", not "User ID is required"; that case is left out.
- The `Meta.ordering` of answers, repair comments, chat rooms and messages is not modelled. The message log is kept in id order; the timestamps come from a clock parameter with no ordering assumption.
- The generic update and destroy actions of the model viewsets (messages, comments, answers, resources, rooms) are not modelled beyond their permission classes.
- The consumer sends the timestamp as `str(...)`. The model carries the timestamp value itself.
- json.loads errors on a malformed frame are left out. A frame is the pair of optional keys.
- The (user, rated_by) unique constraint is enforced by the database, because `rated_by` is read-only and DRF adds no validator. The model reports it as DuplicateRating before saving.

## Findings

| source | as written | input that shows it | evidently intended | confidence | as-written member | corrected member |
|---|---|---|---|---|---|---|
| repairs/views.py:108-113 | `profile.total_earnings += float(final_cost)` adds a `float` to the `Decimal` field, which raises TypeError before `repair_request.save()` | a technician with a profile completes an assigned repair with `final_cost` 50; see `RepairViews.CompletionWithProfileFailsAsWritten` | the completion is saved and the final cost credited to the technician | not executed | RepairViews.UpdateStatusAsWritten | RepairViews.UpdateStatus |
| academics/views.py:168-171 | `profile.total_earnings += float(question.session_fee)` raises TypeError after the answer and the status change are saved | an assigned teacher with a profile answers a question whose session fee is 20; see `AcademicViews.FeeAnswerFailsAfterSaving` | the request succeeds and the fee is credited to the teacher | not executed | AcademicViews.AnswerAsWritten | AcademicViews.AnswerQuestion |
| users/serializers.py:94-98 | `validate` reads `attrs['user']` unconditionally | a PATCH of a rating that omits `user` (a partial update) raises KeyError, see `UserSerializers.PartialRatingUpdateFails` | compare the requester with the submitted user or, when none is submitted, with the rating's current user | not executed | UserSerializers.SelfRatingCheckAsWritten | UserSerializers.SelfRatingCheck |
