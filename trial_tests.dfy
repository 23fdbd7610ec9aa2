/**
 * The trial-test table and `/api/trial-tests`: POST refuses a body whose
 * required fields are not all truthy, then inserts one row whose status is
 * always "created"; GET lists every row, newest first.
 *
 * The request body is a JSON object whose fields are `Json` values; a
 * missing field reads as `JNull` (`undefined` and `null` behave alike
 * here). The new row's id, the creation time and the ids present in the
 * user table (the target of the `creatorAdminId` foreign key) are
 * parameters.
 */
module TrialTests {
  import opened JsText
  import Sorting

  /** A JSON value; numbers are integers. */
  datatype Json = JNull | JBool(b: bool) | JNum(n: int) | JStr(s: string)

  /** JavaScript truthiness: null, false, 0 and "" are falsy. */
  predicate Truthy(v: Json) {
    match v
    case JNull => false
    case JBool(b) => b
    case JNum(n) => n != 0
    case JStr(s) => s != ""
  }

  datatype TestType = Free | Paid

  datatype TestStatus = Created | InProgress | Ready

  /** A row of the trial-test table; times are in milliseconds. */
  datatype TrialTest = TrialTest(
    id: int,
    title: string,
    description: string,
    kind: TestType,
    status: TestStatus,
    durationMinutes: int,
    totalQuestions: int,
    creatorAdminId: Option<int>,
    createdAt: int,
    updatedAt: int)

  /** The fields POST reads from the body. */
  datatype TrialTestBody = TrialTestBody(
    title: Json,
    description: Json,
    kind: Json,
    durationMinutes: Json,
    totalQuestions: Json,
    creatorAdminId: Json)

  datatype CreateResponse =
    | TestCreated(trialTestId: int)          // `{ success: true, trialTestId }`
    | CreateError(status: int, error: string)

  datatype ListResponse = Tests(tests: seq<TrialTest>) | ListError(status: int, error: string)

  const RequiredMessage := "Все поля обязательны"
  const CreateFailedMessage := "Failed to create trial test"
  const ListFailedMessage := "Failed to fetch trial tests"

  /** Prisma's `Int` columns hold 32-bit signed integers. */
  const IntMin: int := -0x8000_0000
  const IntMax: int := 0x7FFF_FFFF

  predicate IsInt32(n: int) { IntMin <= n <= IntMax }

  /** The guard of the 400 answer: every required field is truthy. */
  predicate AllRequired(b: TrialTestBody) {
    Truthy(b.title) && Truthy(b.description) && Truthy(b.kind)
    && Truthy(b.durationMinutes) && Truthy(b.totalQuestions)
  }

  /** The `type` enum value a JSON string names; Prisma refuses anything else. */
  function ParseType(v: Json): Option<TestType> {
    if v == JStr("free") then Some(Free)
    else if v == JStr("paid") then Some(Paid)
    else None
  }

  /**
   * `Number(v)`, as far as the result can be stored in an integer column:
   * booleans give 0 or 1, numbers themselves, and a string its value when
   * it is a plain run of decimal digits once trimmed. Every other string
   * gives NaN or a fraction, which the column refuses (None).
   */
  function NumberOf(v: Json): Option<int> {
    match v
    case JNull => Some(0)
    case JBool(b) => Some(if b then 1 else 0)
    case JNum(n) => Some(n)
    case JStr(s) =>
      var t := Trim(s);
      if t != [] && AllDigits(t) then Some(DigitsValue(t)) else None
  }

  /** `creatorAdminId || null`: a falsy value is stored as null. */
  function CreatorOf(v: Json): Option<Json> {
    if Truthy(v) then Some(v) else None
  }

  /** The insert succeeds: strings where strings go, a known type, 32-bit numbers, an existing creator. */
  predicate Storable(b: TrialTestBody, userIds: set<int>) {
    && b.title.JStr? && b.description.JStr? && ParseType(b.kind).Some?
    && NumberOf(b.durationMinutes).Some? && IsInt32(NumberOf(b.durationMinutes).value)
    && NumberOf(b.totalQuestions).Some? && IsInt32(NumberOf(b.totalQuestions).value)
    && (CreatorOf(b.creatorAdminId).Some? ==>
          b.creatorAdminId.JNum? && b.creatorAdminId.n in userIds)
  }

  /** The row `prisma.trialTest.create` inserts for a storable body. */
  function NewRow(b: TrialTestBody, userIds: set<int>, newId: int, now: int): TrialTest
    requires Storable(b, userIds)
  {
    TrialTest(newId, b.title.s, b.description.s, ParseType(b.kind).value, Created,
              NumberOf(b.durationMinutes).value, NumberOf(b.totalQuestions).value,
              if Truthy(b.creatorAdminId) then Some(b.creatorAdminId.n) else None,
              now, now)
  }

  /**
   * POST /api/trial-tests. A body that is not JSON fails with 500. A falsy
   * required field gives 400 before any insert. An insert the database
   * refuses gives 500. Otherwise one row is appended and its id returned.
   * No error changes the table.
   */
  function CreateTrialTest(table: seq<TrialTest>, body: Option<TrialTestBody>, userIds: set<int>,
                           newId: int, now: int): (r: (seq<TrialTest>, CreateResponse))
    ensures r.1.CreateError? ==> r.0 == table
    ensures body.None? ==> r.1 == CreateError(500, CreateFailedMessage)
    ensures body.Some? && !AllRequired(body.value) ==> r.1 == CreateError(400, RequiredMessage)
    ensures r.1.TestCreated? <==> body.Some? && AllRequired(body.value) && Storable(body.value, userIds)
    ensures body.Some? && AllRequired(body.value) && !Storable(body.value, userIds) ==>
      r.1 == CreateError(500, CreateFailedMessage)
    ensures r.1.CreateError? && r.1.status == 400 <==> body.Some? && !AllRequired(body.value)
    ensures r.1.TestCreated? ==>
      && r.1.trialTestId == newId
      && |r.0| == |table| + 1 && r.0[..|table|] == table
      && var row := r.0[|table|];
      && row.id == newId && row.status == Created && row.createdAt == now && row.updatedAt == now
      && row.title == body.value.title.s && row.description == body.value.description.s
      && ParseType(body.value.kind) == Some(row.kind)
      && Some(row.durationMinutes) == NumberOf(body.value.durationMinutes)
      && Some(row.totalQuestions) == NumberOf(body.value.totalQuestions)
      && (row.creatorAdminId.None? <==> !Truthy(body.value.creatorAdminId))
      && (Truthy(body.value.creatorAdminId) ==>
            body.value.creatorAdminId == JNum(row.creatorAdminId.value))
  {
    match body
    case None => (table, CreateError(500, CreateFailedMessage))
    case Some(b) =>
      if !AllRequired(b) then (table, CreateError(400, RequiredMessage))
      else if !Storable(b, userIds) then (table, CreateError(500, CreateFailedMessage))
      else
        var row := NewRow(b, userIds, newId, now);
        (table + [row], TestCreated(newId))
  }

  /** Zero minutes or zero questions is a missing field: 400, nothing created. */
  lemma ZeroCountsRejected(table: seq<TrialTest>, b: TrialTestBody, userIds: set<int>, newId: int, now: int)
    requires b.durationMinutes == JNum(0) || b.totalQuestions == JNum(0)
    ensures CreateTrialTest(table, Some(b), userIds, newId, now) == (table, CreateError(400, RequiredMessage))
  {
  }

  /** A falsy creator id (absent, null, 0, "", false) never reaches the foreign key: the row has no creator. */
  lemma FalsyCreatorStoredAsNull(table: seq<TrialTest>, b: TrialTestBody, userIds: set<int>, newId: int, now: int)
    requires !Truthy(b.creatorAdminId)
    requires AllRequired(b) && Storable(b, userIds)
    ensures var r := CreateTrialTest(table, Some(b), userIds, newId, now);
      r.1 == TestCreated(newId) && r.0[|table|].creatorAdminId.None?
  {
  }

  /** The body of the end-to-end example: a free test of 60 minutes and 20 questions. */
  function ExampleBody(): TrialTestBody {
    TrialTestBody(JStr("Math Basics"), JStr("..."), JStr("free"), JNum(60), JNum(20), JNull)
  }

  /** The example is accepted, stored as created, free, 60 minutes, 20 questions, with no creator. */
  lemma ExampleCreated(table: seq<TrialTest>, userIds: set<int>, newId: int, now: int)
    ensures var r := CreateTrialTest(table, Some(ExampleBody()), userIds, newId, now);
      && r.1 == TestCreated(newId)
      && r.0 == table + [TrialTest(newId, "Math Basics", "...", Free, Created, 60, 20, None, now, now)]
  {
    assert Storable(ExampleBody(), userIds);
  }

  /** `orderBy: { createdAt: 'desc' }`. */
  function NewerFirst(): (TrialTest, TrialTest) -> bool {
    (a: TrialTest, b: TrialTest) => a.createdAt >= b.createdAt
  }

  lemma NewerFirstIsTotalPreorder()
    ensures Sorting.TotalPreorder(NewerFirst())
  {
  }

  /** GET /api/trial-tests: every row, newest first, or 500 when the read fails (`None`). */
  function ListTrialTests(db: Option<seq<TrialTest>>): (r: ListResponse)
    ensures db.None? <==> r == ListError(500, ListFailedMessage)
    ensures db.Some? ==> r.Tests? && multiset(r.tests) == multiset(db.value)
  {
    match db
    case None => ListError(500, ListFailedMessage)
    case Some(t) => Tests(Sorting.Sort(t, NewerFirst()))
  }

  /** The list is ordered by creation time, newest first. */
  lemma ListNewestFirst(table: seq<TrialTest>)
    ensures var r := ListTrialTests(Some(table));
      forall i, j :: 0 <= i < j < |r.tests| ==> r.tests[i].createdAt >= r.tests[j].createdAt
  {
    NewerFirstIsTotalPreorder();
    Sorting.SortSorted(table, NewerFirst());
  }

  /** A test created after every existing one heads the next listing. */
  lemma CreatedTestListedFirst(table: seq<TrialTest>, b: TrialTestBody, userIds: set<int>, newId: int, now: int)
    requires forall i :: 0 <= i < |table| ==> table[i].createdAt < now
    requires CreateTrialTest(table, Some(b), userIds, newId, now).1.TestCreated?
    ensures var t := CreateTrialTest(table, Some(b), userIds, newId, now).0;
      var listed := ListTrialTests(Some(t)).tests;
      |listed| == |table| + 1 && listed[0] == t[|table|] && listed[0].id == newId
  {
    var t := CreateTrialTest(table, Some(b), userIds, newId, now).0;
    var row := t[|table|];
    assert t == table + [row];
    var listed := ListTrialTests(Some(t)).tests;
    ListNewestFirst(t);
    assert |listed| == |t| by {
      assert |multiset(listed)| == |multiset(t)|;
    }
    assert row in multiset(listed) by { assert row in t; }
    var k :| 0 <= k < |listed| && listed[k] == row;
    assert listed[0].createdAt >= now by {
      if k > 0 { assert listed[0].createdAt >= listed[k].createdAt; }
    }
    assert listed[0] in multiset(t) by { assert listed[0] in listed; }
  }
}
