/**
 * The create/edit dialog for a trial test. The form holds the text of each
 * input; `validateRequiredFields` gates `handleSubmit`, which converts the
 * two counts with `parseInt`, hands the record to `onSubmit`, shows a
 * toast, and on success puts the defaults back.
 *
 * What `onSubmit` does is a parameter (`SubmitOutcome`); the toast the
 * dialog asks for is returned rather than shown.
 */
module TestModal {
  import opened JsText
  import Toasts
  import TrialTests

  /** The form state: the text of every field. */
  datatype Form = Form(
    title: string,
    description: string,
    language: string,
    kind: string,
    durationMinutes: string,
    totalQuestions: string)

  /** What a new dialog shows and what a successful save returns to. */
  const DefaultForm: Form := Form("", "", "KYRGYZ", "paid", "150", "210")

  /** The test passed in for editing. */
  datatype Test = Test(
    id: int,
    title: string,
    description: string,
    language: string,
    kind: string,
    durationMinutes: int,
    totalQuestions: int)

  const ValidationMessage := "Пожалуйста, заполните все обязательные поля"
  const UpdatedMessage := "Тест успешно обновлен"
  const CreatedMessage := "Тест успешно создан"
  const SaveFailedMessage := "Произошла ошибка при сохранении теста"

  /**
   * The effect on `[test]`: the defaults without a test; otherwise its
   * fields, an empty type read as "paid", and the counts as decimal text
   * (`String(n)` is never empty, so the "150"/"210" fallbacks never apply).
   */
  function LoadedForm(test: Option<Test>): Form {
    match test
    case None => DefaultForm
    case Some(t) =>
      Form(t.title, t.description, t.language, if t.kind == "" then "paid" else t.kind,
           IntToDecimal(t.durationMinutes), IntToDecimal(t.totalQuestions))
  }

  /** `validateRequiredFields`. */
  predicate Valid(f: Form) {
    Trim(f.title) != "" && Trim(f.description) != "" && f.language != ""
  }

  /** The form passes exactly when title and description hold a non-space character and a language is chosen. */
  lemma ValidMeaning(f: Form)
    ensures Valid(f) <==> !AllSpace(f.title) && !AllSpace(f.description) && f.language != ""
  {
    TrimEmptyIffAllSpace(f.title);
    TrimEmptyIffAllSpace(f.description);
  }

  /** The record `handleSubmit` passes on: the form with both counts through `parseInt` (None for NaN). */
  datatype SubmitData = SubmitData(
    title: string,
    description: string,
    language: string,
    kind: string,
    durationMinutes: Option<int>,
    totalQuestions: Option<int>)

  function SubmitDataOf(f: Form): SubmitData {
    SubmitData(f.title, f.description, f.language, f.kind,
               JsParseInt(f.durationMinutes), JsParseInt(f.totalQuestions))
  }

  /** The defaults read as 150 minutes and 210 questions. */
  lemma DefaultCounts()
    ensures SubmitDataOf(DefaultForm).durationMinutes == Some(150)
    ensures SubmitDataOf(DefaultForm).totalQuestions == Some(210)
  {
    Decimal150();
    Decimal210();
  }

  lemma Decimal150()
    ensures JsParseInt("150") == Some(150)
  {
    var d := "150";
    assert AllDigits(d);
    assert DigitsValue(d[..1]) == 1;
    assert DigitsValue(d[..2]) == 15;
    assert DigitsValue(d) == 150;
    MagnitudeOfDigits(d);
    ParseIntOfMagnitude(d, 150);
  }

  lemma Decimal210()
    ensures JsParseInt("210") == Some(210)
  {
    var d := "210";
    assert AllDigits(d);
    assert DigitsValue(d[..1]) == 2;
    assert DigitsValue(d[..2]) == 21;
    assert DigitsValue(d) == 210;
    MagnitudeOfDigits(d);
    ParseIntOfMagnitude(d, 210);
  }

  /** Opening a test and saving it untouched submits that test's own values. */
  lemma LoadThenSubmitKeepsTest(t: Test)
    requires t.kind != ""
    ensures SubmitDataOf(LoadedForm(Some(t))) ==
      SubmitData(t.title, t.description, t.language, t.kind, Some(t.durationMinutes), Some(t.totalQuestions))
  {
    ParseIntOfDecimal(t.durationMinutes);
    ParseIntOfDecimal(t.totalQuestions);
  }

  /** The fields `handleChange` can set (the `name` of an input or select). */
  datatype Field = TitleField | DescriptionField | LanguageField | TypeField | DurationField | QuestionsField

  function Changed(f: Form, field: Field, value: string): (r: Form) {
    match field
    case TitleField => f.(title := value)
    case DescriptionField => f.(description := value)
    case LanguageField => f.(language := value)
    case TypeField => f.(kind := value)
    case DurationField => f.(durationMinutes := value)
    case QuestionsField => f.(totalQuestions := value)
  }

  /** What `onSubmit` did: resolved, threw an `Error`, or threw something else. */
  datatype Thrown = ErrorInstance(message: string) | OtherValue
  datatype SubmitOutcome = Saved | Failed(thrown: Thrown)

  function FailureMessage(t: Thrown): string {
    match t
    case ErrorInstance(m) => m
    case OtherValue => SaveFailedMessage
  }

  datatype ToastRequest = ToastRequest(message: string, kind: Toasts.ToastType)

  /** The part of the dialog state `handleSubmit` changes. */
  datatype SubmitState = SubmitState(form: Form, error: string, isLoading: bool)

  datatype SubmitResult = SubmitResult(next: SubmitState, submitted: Option<SubmitData>, toast: Option<ToastRequest>, closed: bool)

  /**
   * `handleSubmit`. An invalid form only sets the validation message. A
   * valid one is submitted; a save shows the success toast, restores the
   * defaults and closes the dialog; a failure shows its message both as the
   * error and as a toast and keeps the form.
   */
  function Submitted(s: SubmitState, editing: bool, outcome: SubmitOutcome): (r: SubmitResult)
    ensures !Valid(s.form) ==> r == SubmitResult(s.(error := ValidationMessage), None, None, false)
    ensures Valid(s.form) ==> r.submitted == Some(SubmitDataOf(s.form)) && !r.next.isLoading
    ensures Valid(s.form) && outcome.Saved? ==>
      && r.closed && r.next.form == DefaultForm && r.next.error == s.error
      && r.toast == Some(ToastRequest(if editing then UpdatedMessage else CreatedMessage, Toasts.Success))
    ensures Valid(s.form) && outcome.Failed? ==>
      && !r.closed && r.next.form == s.form && r.next.error == FailureMessage(outcome.thrown)
      && r.toast == Some(ToastRequest(FailureMessage(outcome.thrown), Toasts.Failure))
  {
    if !Valid(s.form) then SubmitResult(s.(error := ValidationMessage), None, None, false)
    else
      var data := Some(SubmitDataOf(s.form));
      match outcome
      case Saved =>
        SubmitResult(SubmitState(DefaultForm, s.error, false), data,
                     Some(ToastRequest(if editing then UpdatedMessage else CreatedMessage, Toasts.Success)), true)
      case Failed(t) =>
        SubmitResult(SubmitState(s.form, FailureMessage(t), false), data,
                     Some(ToastRequest(FailureMessage(t), Toasts.Failure)), false)
  }

  /** The defaults have no title, so they do not pass validation. */
  lemma DefaultFormInvalid()
    ensures !Valid(DefaultForm)
  {
    assert LeadingSpaces(DefaultForm.title) == 0;
  }

  /** After a save the dialog holds the defaults, and submitting them again only shows the validation message. */
  lemma SavedThenResubmitRefused(s: SubmitState, editing: bool, outcome: SubmitOutcome)
    requires Valid(s.form)
    ensures var r := Submitted(s, editing, Saved);
      && r.next.form == DefaultForm
      && Submitted(r.next, editing, outcome) == SubmitResult(r.next.(error := ValidationMessage), None, None, false)
  {
    DefaultFormInvalid();
  }

  /**
   * The JSON body of the submitted record: `JSON.stringify` writes a NaN
   * count as null, and the record carries no creator. The dialog's caller
   * posts it to POST /api/trial-tests; that caller is not part of this model.
   */
  function RequestBody(d: SubmitData): TrialTests.TrialTestBody {
    TrialTests.TrialTestBody(
      TrialTests.JStr(d.title), TrialTests.JStr(d.description), TrialTests.JStr(d.kind),
      if d.durationMinutes.Some? then TrialTests.JNum(d.durationMinutes.value) else TrialTests.JNull,
      if d.totalQuestions.Some? then TrialTests.JNum(d.totalQuestions.value) else TrialTests.JNull,
      TrialTests.JNull)
  }

  /** A count that does not parse passes the dialog but is refused by the route with 400. */
  lemma UnparsedCountRefused(f: Form, table: seq<TrialTests.TrialTest>, userIds: set<int>, newId: int, now: int)
    requires JsParseInt(f.durationMinutes).None? || JsParseInt(f.totalQuestions).None?
    ensures TrialTests.CreateTrialTest(table, Some(RequestBody(SubmitDataOf(f))), userIds, newId, now)
      == (table, TrialTests.CreateError(400, TrialTests.RequiredMessage))
  {
  }

  /**
   * A valid form with a known type and positive 32-bit counts is stored by
   * the route: status "created", its title, and the counts as parsed. The
   * chosen language is not among the stored columns.
   */
  lemma ValidFormCreated(f: Form, table: seq<TrialTests.TrialTest>, userIds: set<int>, newId: int, now: int)
    requires Valid(f)
    requires f.kind == "free" || f.kind == "paid"
    requires JsParseInt(f.durationMinutes).Some? && 0 < JsParseInt(f.durationMinutes).value <= TrialTests.IntMax
    requires JsParseInt(f.totalQuestions).Some? && 0 < JsParseInt(f.totalQuestions).value <= TrialTests.IntMax
    ensures var r := TrialTests.CreateTrialTest(table, Some(RequestBody(SubmitDataOf(f))), userIds, newId, now);
      && r.1 == TrialTests.TestCreated(newId)
      && r.0[|table|].status == TrialTests.Created && r.0[|table|].title == f.title
      && Some(r.0[|table|].durationMinutes) == JsParseInt(f.durationMinutes)
      && Some(r.0[|table|].totalQuestions) == JsParseInt(f.totalQuestions)
  {
    assert f.title != "" && f.description != "" by {
      assert |Trim(f.title)| <= |f.title| && |Trim(f.description)| <= |f.description|;
    }
    var b := RequestBody(SubmitDataOf(f));
    assert TrialTests.AllRequired(b);
    assert TrialTests.Storable(b, userIds);
  }

  /** The dialog. */
  class TestForm {
    var test: Option<Test>
    var form: Form
    var error: string
    var isLoading: bool

    constructor ()
      ensures test.None? && form == DefaultForm && error == "" && !isLoading
    {
      test, form, error, isLoading := None, DefaultForm, "", false;
    }

    /** The effect on `[test]`: a new test loads its values, none loads the defaults. */
    method TestChanged(t: Option<Test>)
      modifies this
      ensures test == t && form == LoadedForm(t)
      ensures error == old(error) && isLoading == old(isLoading)
    {
      test := t;
      form := LoadedForm(t);
    }

    /** `handleChange`: one field takes the new value and the error is cleared. */
    method HandleChange(field: Field, value: string)
      modifies this
      ensures form == Changed(old(form), field, value) && error == ""
      ensures test == old(test) && isLoading == old(isLoading)
    {
      form := Changed(form, field, value);
      error := "";
    }

    /** The save button is disabled while saving or while the form is invalid. */
    function SaveEnabled(): (b: bool)
      reads this
      ensures b ==> Valid(form)
    {
      !isLoading && Valid(form)
    }

    /** `handleSubmit`, as described by `Submitted`; `isLoading` is true only while `onSubmit` runs. */
    method HandleSubmit(outcome: SubmitOutcome) returns (submitted: Option<SubmitData>, toast: Option<ToastRequest>, closed: bool)
      modifies this
      ensures var r := Submitted(SubmitState(old(form), old(error), old(isLoading)), old(test).Some?, outcome);
        && submitted == r.submitted && toast == r.toast && closed == r.closed
        && form == r.next.form && error == r.next.error && isLoading == r.next.isLoading
      ensures test == old(test)
    {
      var r := Submitted(SubmitState(form, error, isLoading), test.Some?, outcome);
      submitted, toast, closed := r.submitted, r.toast, r.closed;
      form, error, isLoading := r.next.form, r.next.error, r.next.isLoading;
    }
  }
}
