/**
 * The user form (create and edit): loading a user into the form, field
 * edits with the username and phone checks they trigger, the required-field
 * test, the submit gate, the cleaned payload and the reset after a save.
 *
 * The phone library's verdict (`isValidPhoneNumber` plus the international
 * formatting) is a parameter: `None` for an invalid number, `Some(text)` for
 * the formatted one. The two availability requests are returned to the
 * caller, and their answers come back as separate events.
 */
module UserModal {
  import opened JsText
  import UsersApi
  import UserChecks

  /** The `user` prop: the record being edited. */
  datatype Profile = Profile(
    id: int,
    fullname: string,
    username: string,
    phoneNumber: Option<string>,
    telegramId: Option<string>,
    points: int,
    role: UsersApi.Role,
    language: UsersApi.Language,
    avatarUrl: Option<string>)

  datatype Form = Form(
    fullname: string,
    username: string,
    phoneNumber: string,
    telegramId: string,
    role: UsersApi.Role,
    language: UsersApi.Language,
    password: string,
    avatarUrl: string)

  /** The `ValidationErrors` keys. A key may be present and hold `undefined` (None). */
  datatype ErrorKey = UsernameKey | PhoneKey

  type Errors = map<ErrorKey, Option<string>>

  const UsernameTakenMessage := "Этот логин уже занят"
  const PhoneTakenMessage := "Этот номер уже используется"
  const PhoneFormatMessage := "Неверный формат номера"
  const SubmitFallbackMessage := "Произошла ошибка"

  /** The blank form: empty strings, role STUDENT, language KYRGYZ. */
  const EmptyForm := Form("", "", "", "", UsersApi.STUDENT, UsersApi.KYRGYZ, "", "")

  /** `value || ''` for a nullable column. */
  function OrEmpty(v: Option<string>): string {
    if v.Some? then v.value else ""
  }

  /** The phone as the form shows it: white space removed, an absent or empty number as "". */
  function LoadedPhone(phone: Option<string>): (r: string)
    ensures forall i :: 0 <= i < |r| ==> !IsSpace(r[i])
  {
    if phone.Some? && phone.value != "" then StripSpaces(phone.value) else ""
  }

  /**
   * The `useEffect` on `user`: the blank form when creating; when editing,
   * the user's fields with the phone's white space removed, null columns as
   * empty strings and an empty password.
   */
  function LoadedForm(user: Option<Profile>): Form
  {
    match user
    case None => EmptyForm
    case Some(u) =>
      Form(u.fullname, u.username, LoadedPhone(u.phoneNumber), OrEmpty(u.telegramId), u.role, u.language, "", OrEmpty(u.avatarUrl))
  }

  /**
   * `validateRequiredFields`: full name and username not blank and, when
   * creating, the password not blank. Blank means empty after `trim`.
   */
  predicate RequiredFieldsValid(form: Form, editing: bool) {
    && Trim(form.fullname) != ""
    && Trim(form.username) != ""
    && (editing || Trim(form.password) != "")
  }

  /** The required-field test holds exactly when none of the required fields is all white space. */
  lemma RequiredFieldsIff(form: Form, editing: bool)
    ensures RequiredFieldsValid(form, editing) <==>
      !AllSpace(form.fullname) && !AllSpace(form.username) && (editing || !AllSpace(form.password))
  {
    TrimEmptyIffAllSpace(form.fullname);
    TrimEmptyIffAllSpace(form.username);
    TrimEmptyIffAllSpace(form.password);
  }

  // ---------------------------------------------------------------------------
  // The submit gate

  /** `Object.keys(errors).length > 0`: counts keys, including keys that hold `undefined`. */
  predicate HasErrorKeys(errors: Errors) {
    |errors| > 0
  }

  /** The gate of `handleSubmit` as written: no key in `errors` and the required fields filled. */
  predicate GateAsWritten(errors: Errors, form: Form, editing: bool) {
    !HasErrorKeys(errors) && RequiredFieldsValid(form, editing)
  }

  /** A validation message the form actually displays under a field. */
  predicate Displayed(errors: Errors, k: ErrorKey) {
    k in errors && errors[k].Some?
  }

  /** The gate as intended: no displayed validation message and the required fields filled. */
  predicate Gate(errors: Errors, form: Form, editing: bool) {
    (forall k :: !Displayed(errors, k)) && RequiredFieldsValid(form, editing)
  }

  /**
   * As written, a check that passed (the key set to `undefined`) still
   * blocks the submission of a complete form, although no message is shown.
   */
  lemma PassedCheckBlocksGateAsWritten(form: Form, editing: bool)
    requires RequiredFieldsValid(form, editing)
    ensures !GateAsWritten(map[UsernameKey := None], form, editing)
    ensures Gate(map[UsernameKey := None], form, editing)
  {
    var errors: Errors := map[UsernameKey := None];
    assert UsernameKey in errors;
  }

  /** Under the intended gate a key holding `undefined` counts as no key at all. */
  lemma UndefinedKeyIsNoError(errors: Errors, k: ErrorKey, form: Form, editing: bool)
    ensures Gate(errors[k := None], form, editing) == Gate(errors - {k}, form, editing)
  {
    var a, b := errors[k := None], errors - {k};
    forall j ensures Displayed(a, j) == Displayed(b, j) {
      if j != k {
        assert (j in a <==> j in b) && (j in a ==> a[j] == b[j]);
      }
    }
    assert (forall j :: !Displayed(a, j)) == (forall j :: !Displayed(b, j));
  }

  /** The intended gate agrees with the written one whenever no key holds `undefined`. */
  lemma GatesAgreeWithoutUndefined(errors: Errors, form: Form, editing: bool)
    requires forall k :: k in errors ==> errors[k].Some?
    ensures Gate(errors, form, editing) == GateAsWritten(errors, form, editing)
  {
    if HasErrorKeys(errors) {
      var k :| k in errors;
      assert Displayed(errors, k);
    } else {
      forall k ensures !Displayed(errors, k) {
        assert k !in errors;
      }
    }
  }

  /** The save button as written: disabled while saving, while a check is running, or while any error key exists. */
  predicate SaveDisabledAsWritten(isLoading: bool, checkingUsername: bool, checkingPhone: bool, errors: Errors, form: Form, editing: bool) {
    isLoading || checkingUsername || checkingPhone || !GateAsWritten(errors, form, editing)
  }

  /** The save button with the intended gate: disabled while saving, while a check is running, or while the gate is closed. */
  function SaveDisabled(isLoading: bool, checkingUsername: bool, checkingPhone: bool, errors: Errors, form: Form, editing: bool): (d: bool)
    ensures !d ==> !isLoading && !checkingUsername && !checkingPhone && Gate(errors, form, editing)
    ensures !d ==> RequiredFieldsValid(form, editing) && forall k :: !Displayed(errors, k)
  {
    isLoading || checkingUsername || checkingPhone || !Gate(errors, form, editing)
  }

  /** As written, a passed check keeps the button of a complete, idle form disabled; with the intended gate it is enabled. */
  lemma PassedCheckDisablesSaveAsWritten(form: Form, editing: bool)
    requires RequiredFieldsValid(form, editing)
    ensures SaveDisabledAsWritten(false, false, false, map[UsernameKey := None], form, editing)
    ensures !SaveDisabled(false, false, false, map[UsernameKey := None], form, editing)
  {
    PassedCheckBlocksGateAsWritten(form, editing);
  }

  // ---------------------------------------------------------------------------
  // The payload

  /** The submitted record: the form with blank optional fields as null and points set on create only. */
  datatype Payload = Payload(
    fullname: string,
    username: string,
    phoneNumber: Option<string>,
    telegramId: Option<string>,
    role: UsersApi.Role,
    language: UsersApi.Language,
    password: string,
    avatarUrl: Option<string>,
    points: Option<int>)

  /** `s.trim() || null`. */
  function NullIfBlank(s: string): (r: Option<string>)
    ensures r.None? <==> AllSpace(s)
    ensures r.Some? ==> r.value == Trim(s)
  {
    TrimEmptyIffAllSpace(s);
    if Trim(s) == "" then None else Some(Trim(s))
  }

  /** A kept value is the input without its outer white space: non-empty, a contiguous part of the input, with no white space at either end. */
  lemma NullIfBlankShape(s: string)
    ensures var r := NullIfBlank(s);
      r.Some? ==> && r.value != "" && !IsSpace(r.value[0]) && !IsSpace(r.value[|r.value| - 1])
                  && OccursAt(s, r.value, |s| - |TrimStart(s)|)
  {
    TrimShape(s);
    TrimIsPart(s);
  }

  /** `cleanedData`. */
  function Cleaned(form: Form, editing: bool): Payload
  {
    Payload(form.fullname, form.username, NullIfBlank(form.phoneNumber), NullIfBlank(form.telegramId),
            form.role, form.language, form.password, NullIfBlank(form.avatarUrl),
            if editing then None else Some(0))
  }

  lemma TrimOfTrimmed(s: string)
    requires s == [] || (!IsSpace(s[0]) && !IsSpace(s[|s| - 1]))
    ensures Trim(s) == s
  {
    if s != [] {
      TrimStartUnchanged(s);
      assert TrailingSpaces(s) == 0;
      assert s[..|s|] == s;
    }
  }

  /** `trim() || null` keeps a value with no white space at either end as it is, and drops it when empty. */
  lemma KeptAsIs(s: string)
    requires s == [] || (!IsSpace(s[0]) && !IsSpace(s[|s| - 1]))
    ensures NullIfBlank(s) == if s == [] then None else Some(s)
  {
    TrimOfTrimmed(s);
  }

  /** A nullable column with no white space at either end survives loading and cleaning unchanged. */
  lemma ColumnRoundTrip(v: Option<string>)
    requires v.Some? ==> v.value != "" && !IsSpace(v.value[0]) && !IsSpace(v.value[|v.value| - 1])
    ensures NullIfBlank(OrEmpty(v)) == v
  {
    KeptAsIs(OrEmpty(v));
  }

  /**
   * Opening a user and saving at once sends back its optional columns,
   * except that white space inside the phone number is gone and an empty
   * value becomes null.
   */
  lemma LoadThenSubmitKeepsColumns(u: Profile)
    requires u.telegramId.Some? ==> u.telegramId.value != "" && !IsSpace(u.telegramId.value[0]) && !IsSpace(u.telegramId.value[|u.telegramId.value| - 1])
    requires u.avatarUrl.Some? ==> u.avatarUrl.value != "" && !IsSpace(u.avatarUrl.value[0]) && !IsSpace(u.avatarUrl.value[|u.avatarUrl.value| - 1])
    ensures var p := Cleaned(LoadedForm(Some(u)), true);
      && p.telegramId == u.telegramId && p.avatarUrl == u.avatarUrl
      && p.phoneNumber == (if u.phoneNumber.None? || StripSpaces(u.phoneNumber.value) == "" then None else Some(StripSpaces(u.phoneNumber.value)))
      && p.points.None? && p.password == ""
  {
    LoadedTelegramKept(u);
    LoadedAvatarKept(u);
    LoadedPhoneCleaned(u);
    LoadedEditSendsNoSecrets(u);
  }

  lemma LoadedTelegramKept(u: Profile)
    requires u.telegramId.Some? ==> u.telegramId.value != "" && !IsSpace(u.telegramId.value[0]) && !IsSpace(u.telegramId.value[|u.telegramId.value| - 1])
    ensures Cleaned(LoadedForm(Some(u)), true).telegramId == u.telegramId
  {
    ColumnRoundTrip(u.telegramId);
  }

  lemma LoadedAvatarKept(u: Profile)
    requires u.avatarUrl.Some? ==> u.avatarUrl.value != "" && !IsSpace(u.avatarUrl.value[0]) && !IsSpace(u.avatarUrl.value[|u.avatarUrl.value| - 1])
    ensures Cleaned(LoadedForm(Some(u)), true).avatarUrl == u.avatarUrl
  {
    ColumnRoundTrip(u.avatarUrl);
  }

  lemma LoadedPhoneCleaned(u: Profile)
    ensures Cleaned(LoadedForm(Some(u)), true).phoneNumber ==
      if u.phoneNumber.None? || StripSpaces(u.phoneNumber.value) == "" then None else Some(StripSpaces(u.phoneNumber.value))
  {
    PhoneRoundTrip(u.phoneNumber);
  }

  /** Saving a freshly loaded user sends no points and an empty password. */
  lemma LoadedEditSendsNoSecrets(u: Profile)
    ensures var p := Cleaned(LoadedForm(Some(u)), true);
      p.points.None? && p.password == ""
  {
  }

  /** The loaded phone, cleaned again, is the stored number without its white space, or null. */
  lemma PhoneRoundTrip(phone: Option<string>)
    ensures NullIfBlank(LoadedPhone(phone)) ==
      if phone.None? || StripSpaces(phone.value) == "" then None else Some(StripSpaces(phone.value))
  {
    var p := LoadedPhone(phone);
    if p != [] {
      assert !IsSpace(p[0]) && !IsSpace(p[|p| - 1]);
    }
    KeptAsIs(p);
  }


  /** A form that passes the gate on create becomes a POST /api/users body with a password and 0 points. */
  function CreateBody(p: Payload): (b: UsersApi.NewUser)
    requires p.points.Some?
    ensures b.username == p.username && b.fullname == p.fullname && b.password == Some(p.password)
    ensures b.phoneNumber == p.phoneNumber && b.telegramId == p.telegramId && b.points == p.points.value
  {
    UsersApi.NewUser(p.fullname, p.username, Some(p.password), p.phoneNumber, p.telegramId,
                     p.points.value, p.role, p.language, p.avatarUrl)
  }

  lemma CreatePayloadHasPassword(form: Form, errors: Errors)
    requires Gate(errors, form, false)
    ensures var b := CreateBody(Cleaned(form, false));
      && b.points == 0 && b.password.Some? && !AllSpace(b.password.value)
  {
    RequiredFieldsIff(form, false);
  }

  // ---------------------------------------------------------------------------
  // The availability checks

  /** `user?.id && user.id.toString()`: the id to exclude, absent when creating or for id 0. */
  function ExcludeOf(user: Option<Profile>): Option<string> {
    if user.Some? && user.value.id != 0 then Some(IntToDecimal(user.value.id)) else None
  }

  /** A request the form sends. */
  datatype CheckRequest =
    | UsernameCheck(username: string, excludeUserId: Option<string>)
    | PhoneCheck(phoneNumber: string, excludeUserId: Option<string>)

  /**
   * The username verdict from the check's answer (None when the request
   * threw). Anything but `available: true` reads as taken, so an error
   * answer also shows the "taken" message; a thrown request clears it.
   */
  function UsernameVerdict(response: Option<UserChecks.CheckResponse>): (m: Option<string>)
    ensures m.Some? ==> m.value == UsernameTakenMessage
    ensures m.None? <==> response.None? || response.value == UserChecks.Availability(true)
  {
    match response
    case None => None
    case Some(r) => if r.Availability? && r.available then None else Some(UsernameTakenMessage)
  }

  /** The phone verdict: as for the username, but a thrown request shows the format message. */
  function PhoneVerdict(response: Option<UserChecks.CheckResponse>): (m: Option<string>)
    ensures m.None? <==> response == Some(UserChecks.Availability(true))
    ensures response.None? ==> m == Some(PhoneFormatMessage)
    ensures response.Some? && m.Some? ==> m.value == PhoneTakenMessage
  {
    match response
    case None => Some(PhoneFormatMessage)
    case Some(r) => if r.Availability? && r.available then None else Some(PhoneTakenMessage)
  }

  /**
   * Editing a user and typing back their own username: the request excludes
   * the user, so when nobody else holds the name no message is shown.
   */
  lemma OwnUsernameNotFlagged(table: seq<UsersApi.User>, me: UsersApi.User, profile: Profile)
    requires me in table && me.id != 0 && me.username != ""
    requires profile.id == me.id && profile.username == me.username
    requires forall u :: u in table && u.username == me.username ==> u.id == me.id
    ensures ExcludeOf(Some(profile)) == Some(IntToDecimal(me.id))
    ensures UserChecks.NumericExclusion(ExcludeOf(Some(profile)))
    ensures UsernameVerdict(Some(UserChecks.CheckUsername(Some(table), Some(profile.username), ExcludeOf(Some(profile))))) == None
  {
    UserChecks.OwnUsernameAvailable(table, me);
  }

  // ---------------------------------------------------------------------------
  // The form state

  /** A field edit: one of the text inputs or one of the two selects. */
  datatype TextField = FullnameField | UsernameField | PhoneField | TelegramField | PasswordField | AvatarField

  datatype Edit = Text(field: TextField, value: string) | RoleChoice(role: UsersApi.Role) | LanguageChoice(language: UsersApi.Language)

  function WithText(f: Form, field: TextField, value: string): Form {
    match field
    case FullnameField => f.(fullname := value)
    case UsernameField => f.(username := value)
    case PhoneField => f.(phoneNumber := value)
    case TelegramField => f.(telegramId := value)
    case PasswordField => f.(password := value)
    case AvatarField => f.(avatarUrl := value)
  }

  /** What the `onSubmit` callback did. */
  datatype Thrown = ErrorInstance(message: string) | ErrorObject(error: string) | OtherValue
  datatype SubmitOutcome = Saved | Failed(thrown: Thrown)

  /** The message a failed submit shows: the Error's message, else the object's `error` field, else the fallback. */
  function SubmitErrorMessage(t: Thrown): string {
    match t
    case ErrorInstance(m) => m
    case ErrorObject(e) => e
    case OtherValue => SubmitFallbackMessage
  }

  /** The part of the form state `handleSubmit` changes. */
  datatype SubmitState = SubmitState(form: Form, errors: Errors, error: string, isLoading: bool)

  datatype SubmitResult = SubmitResult(next: SubmitState, payload: Option<Payload>, closed: bool)

  /**
   * `handleSubmit` with the intended gate. A closed gate changes nothing and
   * submits nothing. Otherwise the cleaned payload is submitted; a save
   * resets the form and the errors and closes the modal, a failure shows its
   * message and keeps the form.
   */
  function Submitted(s: SubmitState, editing: bool, outcome: SubmitOutcome): (r: SubmitResult)
    ensures !Gate(s.errors, s.form, editing) ==> r == SubmitResult(s, None, false)
    ensures Gate(s.errors, s.form, editing) ==>
      && r.payload == Some(Cleaned(s.form, editing))
      && !r.next.isLoading
      && (outcome.Saved? ==> r.closed && r.next.form == EmptyForm && r.next.errors == map[] && r.next.error == "")
      && (outcome.Failed? ==> !r.closed && r.next.form == s.form && r.next.errors == s.errors
                              && r.next.error == SubmitErrorMessage(outcome.thrown))
  {
    if !Gate(s.errors, s.form, editing) then SubmitResult(s, None, false)
    else
      var payload := Some(Cleaned(s.form, editing));
      match outcome
      case Saved => SubmitResult(SubmitState(EmptyForm, map[], "", false), payload, true)
      case Failed(t) => SubmitResult(SubmitState(s.form, s.errors, SubmitErrorMessage(t), false), payload, false)
  }

  /** A click on the enabled save button always submits the cleaned form. */
  lemma EnabledSaveSubmits(s: SubmitState, checkingUsername: bool, checkingPhone: bool, editing: bool, outcome: SubmitOutcome)
    requires !SaveDisabled(s.isLoading, checkingUsername, checkingPhone, s.errors, s.form, editing)
    ensures Submitted(s, editing, outcome).payload == Some(Cleaned(s.form, editing))
  {
  }

  /**
   * Where the written handler and `Submitted` part: a complete form whose
   * username check passed is refused as written but submitted here.
   */
  lemma SubmittedDiffersOnPassedCheck(form: Form, editing: bool, error: string, isLoading: bool, outcome: SubmitOutcome)
    requires RequiredFieldsValid(form, editing)
    ensures !GateAsWritten(map[UsernameKey := None], form, editing)
    ensures Submitted(SubmitState(form, map[UsernameKey := None], error, isLoading), editing, outcome).payload
            == Some(Cleaned(form, editing))
  {
    PassedCheckBlocksGateAsWritten(form, editing);
  }

  /** After a successful save the form is blank again and a new submission is refused until it is filled in. */
  lemma SavedFormIsBlank(s: SubmitState, editing: bool)
    requires Gate(s.errors, s.form, editing)
    ensures var r := Submitted(s, editing, Saved);
      && r.next.form == EmptyForm && !Gate(r.next.errors, r.next.form, editing)
      && Submitted(r.next, editing, Saved).payload.None?
  {
    var next := Submitted(s, editing, Saved).next;
    assert next == SubmitState(EmptyForm, map[], "", false);
    EmptyFormBlocked(editing);
  }

  lemma EmptyFormBlocked(editing: bool)
    ensures !Gate(map[], EmptyForm, editing)
  {
    TrimEmptyIffAllSpace(EmptyForm.fullname);
  }

  class UserForm {
    var user: Option<Profile>
    var form: Form
    var errors: Errors
    var isLoading: bool
    var error: string
    var isCheckingUsername: bool
    var isCheckingPhone: bool

    /** Mounting: the initial state followed by the effect that loads `user`. */
    constructor (user: Option<Profile>)
      ensures this.user == user && form == LoadedForm(user) && errors == map[]
      ensures !isLoading && error == "" && !isCheckingUsername && !isCheckingPhone
    {
      this.user := user;
      form := LoadedForm(user);
      errors := map[];
      isLoading := false;
      error := "";
      isCheckingUsername := false;
      isCheckingPhone := false;
    }

    predicate Editing()
      reads this
    {
      user.Some?
    }

    /** The effect re-running for a new `user` prop. */
    method UserChanged(u: Option<Profile>)
      modifies this
      ensures user == u && form == LoadedForm(u) && errors == map[]
      ensures isLoading == old(isLoading) && error == old(error)
      ensures isCheckingUsername == old(isCheckingUsername) && isCheckingPhone == old(isCheckingPhone)
    {
      user := u;
      form := LoadedForm(u);
      errors := map[];
    }

    /**
     * `handleChange`: the value is stored and every error cleared, then the
     * username or phone check starts. `phoneFormat` is the phone library's
     * verdict on the typed number. Returns the request sent, if any.
     */
    method HandleChange(edit: Edit, phoneFormat: Option<string>) returns (request: Option<CheckRequest>)
      modifies this
      ensures user == old(user) && isLoading == old(isLoading) && error == old(error)
      ensures edit.RoleChoice? ==> form == old(form).(role := edit.role) && errors == map[] && request.None?
      ensures edit.LanguageChoice? ==> form == old(form).(language := edit.language) && errors == map[] && request.None?
      ensures edit.Text? && edit.field != UsernameField && edit.field != PhoneField ==>
        form == WithText(old(form), edit.field, edit.value) && errors == map[] && request.None?
      ensures edit.Text? && edit.field == UsernameField ==>
        && form == old(form).(username := edit.value)
        && (edit.value == "" ==> errors == map[UsernameKey := None] && request.None?
                                  && isCheckingUsername == old(isCheckingUsername))
        && (edit.value != "" ==> errors == map[] && isCheckingUsername
                                  && request == Some(UsernameCheck(edit.value, ExcludeOf(user))))
      ensures edit.Text? && edit.field == PhoneField ==>
        && (edit.value == "" ==> form == old(form).(phoneNumber := "") && errors == map[PhoneKey := None]
                                  && request.None? && isCheckingPhone == old(isCheckingPhone))
        && (edit.value != "" && phoneFormat.None? ==>
              form == old(form).(phoneNumber := edit.value) && errors == map[PhoneKey := Some(PhoneFormatMessage)]
              && request.None? && !isCheckingPhone)
        && (edit.value != "" && phoneFormat.Some? ==>
              && form == old(form).(phoneNumber := StripSpaces(phoneFormat.value)) && errors == map[]
              && (if user.Some? && user.value.phoneNumber == Some(StripSpaces(phoneFormat.value))
                  then request.None? && !isCheckingPhone
                  else request == Some(PhoneCheck(StripSpaces(phoneFormat.value), ExcludeOf(user))) && isCheckingPhone))
      ensures !(edit.Text? && edit.field == UsernameField) ==> isCheckingUsername == old(isCheckingUsername)
      ensures !(edit.Text? && edit.field == PhoneField) ==> isCheckingPhone == old(isCheckingPhone)
    {
      request := None;
      match edit
      case RoleChoice(r) =>
        form := form.(role := r);
        errors := map[];
      case LanguageChoice(l) =>
        form := form.(language := l);
        errors := map[];
      case Text(field, value) =>
        form := WithText(form, field, value);
        errors := map[];
        if field == UsernameField {
          if value == "" {
            errors := errors[UsernameKey := None];
          } else {
            isCheckingUsername := true;
            request := Some(UsernameCheck(value, ExcludeOf(user)));
          }
        } else if field == PhoneField && value != "" {
          if phoneFormat.None? {
            errors := errors[PhoneKey := Some(PhoneFormatMessage)];
            isCheckingPhone := false;
          } else {
            var formatted := StripSpaces(phoneFormat.value);
            form := form.(phoneNumber := formatted);
            if user.Some? && user.value.phoneNumber == Some(formatted) {
              isCheckingPhone := false;
            } else {
              isCheckingPhone := true;
              request := Some(PhoneCheck(formatted, ExcludeOf(user)));
            }
          }
        } else if field == PhoneField {
          errors := errors[PhoneKey := None];
        }
    }

    /** The username check answering (None: the request threw). */
    method UsernameCheckDone(response: Option<UserChecks.CheckResponse>)
      modifies this
      ensures errors == old(errors)[UsernameKey := UsernameVerdict(response)]
      ensures !isCheckingUsername
      ensures form == old(form) && user == old(user) && isCheckingPhone == old(isCheckingPhone)
      ensures isLoading == old(isLoading) && error == old(error)
    {
      errors := errors[UsernameKey := UsernameVerdict(response)];
      isCheckingUsername := false;
    }

    /** The phone check answering (None: the request threw). */
    method PhoneCheckDone(response: Option<UserChecks.CheckResponse>)
      modifies this
      ensures errors == old(errors)[PhoneKey := PhoneVerdict(response)]
      ensures !isCheckingPhone
      ensures form == old(form) && user == old(user) && isCheckingUsername == old(isCheckingUsername)
      ensures isLoading == old(isLoading) && error == old(error)
    {
      errors := errors[PhoneKey := PhoneVerdict(response)];
      isCheckingPhone := false;
    }

    /**
     * `handleSubmit` with the intended gate, as described by `Submitted`:
     * `isLoading` is true while `onSubmit` runs and false again afterwards.
     */
    method HandleSubmit(outcome: SubmitOutcome) returns (submitted: Option<Payload>, closed: bool)
      modifies this
      ensures var r := Submitted(SubmitState(old(form), old(errors), old(error), old(isLoading)), old(user).Some?, outcome);
        && submitted == r.payload && closed == r.closed
        && form == r.next.form && errors == r.next.errors && error == r.next.error && isLoading == r.next.isLoading
      ensures user == old(user) && isCheckingUsername == old(isCheckingUsername) && isCheckingPhone == old(isCheckingPhone)
    {
      var r := Submitted(SubmitState(form, errors, error, isLoading), user.Some?, outcome);
      submitted, closed := r.payload, r.closed;
      form, errors, error, isLoading := r.next.form, r.next.errors, r.next.error, r.next.isLoading;
    }
  }
}
