/** Shared vocabulary of the campus-services backend model: optional values,
    results of request handlers, the error taxonomy the views and serializers
    answer with, and the scalar types (money in cents, timestamps, byte sizes). */
module Common {

  datatype Option<+T> = None | Some(value: T)

  /** The outcome of a handler that produces a value or rejects the request. */
  datatype Result<+T> = Ok(value: T) | Err(error: Error)

  /** The outcome of a handler that only changes state or rejects the request. */
  datatype Outcome = Done | Rejected(error: Error) {
    predicate IsDone() { Done? }
  }

  /** Every rejection the modelled handlers produce. HTTP status codes and the
      message strings of the responses are not modelled; each distinct response
      of the source is one constructor. */
  datatype Error =
    // academics/views.py and repairs/views.py, lifecycle actions
    | AlreadyAssigned          // 400 "already assigned"
    | NotPending               // 400 "Only pending ... can be assigned"
    | NotAssignedToYou         // 403 "You are not assigned to this ..."
    | InvalidStatus            // 400 "Invalid status. Choose from ..."
    | FinalCostRequired        // 400 "Final cost is required ..."
    | NotQuestionStudent       // 403 "Only the student who asked ..."
    | PermissionDenied         // PermissionDenied raised by perform_create
    // chat/views.py and chat/serializers.py
    | UserIdRequired           // 400 "User ID is required."
    | UserDoesNotExist         // 404 "User does not exist."
    | CannotMarkAsRead         // 400 "Cannot mark this message as read."
    | TooFewParticipants       // ValidationError "at least 2 participants"
    | UnknownObject            // a primary-key field naming a row that does not exist
    | MalformedFrame           // a WebSocket frame without the "message" key
    | RoomDoesNotExist         // ChatRoom.DoesNotExist raised while saving a message
    // serializers' file validators
    | FileTooLarge             // "File size cannot exceed 10MB" / "20MB"
    | VideoTooLarge            // "Video size cannot exceed 100MB"
    | InvalidChoice            // a choice field given a value outside its choices
    | BlankField               // a required text field left empty ("This field may not be blank.")
    | FieldRequired            // a required field missing from a full update ("This field is required.")
    // users
    | PasswordsDoNotMatch      // "Password fields didn't match."
    | BlankPassword            // a password field left empty ("This field may not be blank.")
    | CannotRateYourself       // "You cannot rate yourself."
    | MissingKey               // KeyError raised inside a handler (a server error)
    | UnsupportedOperand       // TypeError raised inside a handler: a Decimal plus a float (a server error)
    | InvalidRatingValue       // rating outside the choices 1..5
    | DuplicateRating          // unique_together ('user', 'rated_by') violated
    | EmailRequired            // ValueError('The email must be set')
    | SuperuserNeedsStaff      // ValueError('Superuser must have is_staff=True.')
    | SuperuserNeedsSuperuser  // ValueError('Superuser must have is_superuser=True.')
    | DuplicateEmail           // unique email violated

  /** Money amounts (Decimal with two places in the source) in integer cents. */
  type Cents = int

  /** A server-assigned point in time (auto_now_add); the clock is a parameter. */
  type Timestamp = int

  const MiB: nat := 1024 * 1024

  /** Python truthiness of an optional text value: None and "" are falsy. */
  predicate TruthyText(s: Option<string>) {
    s.Some? && s.value != ""
  }

  /** Python truthiness of an optional amount: None and zero are falsy. */
  predicate TruthyAmount(a: Option<Cents>) {
    a.Some? && a.value != 0
  }

  /** Python's str.isspace on one character: the characters str.strip()
      removes when called without an argument. */
  predicate IsSpace(c: char) {
    || c == ' ' || ('\t' <= c <= '\r') || ('\U{1C}' <= c <= '\U{1F}')
    || c == '\U{85}' || c == '\U{A0}' || c == '\U{1680}' || ('\U{2000}' <= c <= '\U{200A}')
    || c == '\U{2028}' || c == '\U{2029}' || c == '\U{202F}' || c == '\U{205F}' || c == '\U{3000}'
  }

  /** s without its leading whitespace. */
  function StripStart(s: string): (t: string)
    ensures |t| <= |s|
    decreases |s|
  {
    if s != "" && IsSpace(s[0]) then StripStart(s[1..]) else s
  }

  /** s without its trailing whitespace. */
  function StripEnd(s: string): (t: string)
    ensures |t| <= |s|
    decreases |s|
  {
    if s != "" && IsSpace(s[|s| - 1]) then StripEnd(s[..|s| - 1]) else s
  }

  /** str.strip(): DRF's CharField trims every text value this way before
      the blank check, and the trimmed value is what is saved. StripShape
      and StripBlank state what it keeps. */
  function Strip(s: string): (t: string)
    ensures |t| <= |s|
  {
    StripEnd(StripStart(s))
  }

  /** StripStart cuts a prefix of whitespace and stops at the first other
      character. */
  lemma {:induction false} StripStartShape(s: string)
    ensures var t := StripStart(s);
      && t == s[|s| - |t|..]
      && (t == "" || !IsSpace(t[0]))
      && (forall i :: 0 <= i < |s| - |t| ==> IsSpace(s[i]))
    decreases |s|
  {
    if s != "" && IsSpace(s[0]) {
      StripStartShape(s[1..]);
    }
  }

  /** StripEnd cuts a suffix of whitespace and stops at the last other
      character. */
  lemma {:induction false} StripEndShape(s: string)
    ensures var t := StripEnd(s);
      && t == s[..|t|]
      && (t == "" || !IsSpace(t[|t| - 1]))
      && (forall i :: |t| <= i < |s| ==> IsSpace(s[i]))
    decreases |s|
  {
    if s != "" && IsSpace(s[|s| - 1]) {
      StripEndShape(s[..|s| - 1]);
    }
  }

  /** Strip(s) is the slice of s between its leading and its trailing
      whitespace: it neither starts nor ends with whitespace, and everything
      cut off on either side is whitespace. */
  lemma StripShape(s: string)
    ensures var t := Strip(s); var k := |s| - |StripStart(s)|;
      && k + |t| <= |s| && t == s[k..k + |t|]
      && (t != "" ==> !IsSpace(t[0]) && !IsSpace(t[|t| - 1]))
      && (forall i :: 0 <= i < k ==> IsSpace(s[i]))
      && (forall i :: k + |t| <= i < |s| ==> IsSpace(s[i]))
  {
    StripStartShape(s);
    var a := StripStart(s);
    StripEndShape(a);
    var t := StripEnd(a);
    var k := |s| - |a|;
    forall i | k + |t| <= i < |s| ensures IsSpace(s[i]) {
      assert s[i] == a[i - k];
    }
    if t != "" {
      assert t[0] == a[0];
    }
  }

  /** A text is blank for DRF exactly when it is all whitespace. */
  lemma StripBlank(s: string)
    ensures Strip(s) == "" <==> forall i :: 0 <= i < |s| ==> IsSpace(s[i])
  {
    StripShape(s);
  }

  /** Trimming a trimmed text changes nothing, so a saved value passes the
      same field validation again. */
  lemma StripIdempotent(s: string)
    ensures Strip(Strip(s)) == Strip(s)
  {
    StripShape(s);
    var t := Strip(s);
    if t != "" {
      assert StripStart(t) == t;
      assert StripEnd(t) == t;
    }
  }
}
