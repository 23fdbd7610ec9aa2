/**
 * `GET /api/users/check-username` and `GET /api/users/check-phone`: "is this
 * value free, not counting user X?". The table is `None` when the lookup
 * fails.
 */
module UserChecks {
  import opened JsText
  import opened UsersApi

  datatype CheckResponse = Availability(available: bool) | CheckError(status: int, error: string)

  /** `excludeUserId && { NOT: { id: parseInt(excludeUserId) } }`: absent or empty excludes nobody. */
  function ExcludedId(excludeUserId: Option<string>): Option<int> {
    var text := ParamOr(excludeUserId, "");
    if text == "" then None else JsParseInt(text)
  }

  /** A present, non-empty excludeUserId reads as a number (NaN is outside the model). */
  predicate NumericExclusion(excludeUserId: Option<string>) {
    ParamOr(excludeUserId, "") == "" || JsParseInt(ParamOr(excludeUserId, "")).Some?
  }

  /** The row counts for the check: it is not the excluded user. */
  predicate Counted(u: User, excluded: Option<int>) {
    excluded.None? || u.id != excluded.value
  }

  /** `findFirst` on `{ username, NOT: { id } }`: the first counted row holding the username. */
  function FirstWithUsername(table: seq<User>, name: string, excluded: Option<int>): (r: Option<User>)
    ensures r.Some? ==> r.value in table && r.value.username == name && Counted(r.value, excluded)
    ensures r.None? ==> forall u :: u in table && u.username == name ==> !Counted(u, excluded)
  {
    if table == [] then None
    else if table[0].username == name && Counted(table[0], excluded) then Some(table[0])
    else FirstWithUsername(table[1..], name, excluded)
  }

  /** `findFirst` on `{ phoneNumber, NOT: { id } }`: the first counted row holding exactly that phone string. */
  function FirstWithPhone(table: seq<User>, phone: string, excluded: Option<int>): (r: Option<User>)
    ensures r.Some? ==> r.value in table && r.value.phoneNumber == Some(phone) && Counted(r.value, excluded)
    ensures r.None? ==> forall u :: u in table && u.phoneNumber == Some(phone) ==> !Counted(u, excluded)
  {
    if table == [] then None
    else if table[0].phoneNumber == Some(phone) && Counted(table[0], excluded) then Some(table[0])
    else FirstWithPhone(table[1..], phone, excluded)
  }

  /**
   * GET /api/users/check-username. A missing or empty username is refused
   * before any lookup; otherwise the name is available exactly when every row
   * holding it is the excluded user.
   */
  function CheckUsername(db: Option<seq<User>>, username: Option<string>, excludeUserId: Option<string>): (r: CheckResponse)
    requires NumericExclusion(excludeUserId)
    ensures ParamOr(username, "") == "" ==> r == CheckError(400, "Username is required")
    ensures ParamOr(username, "") != "" && db.None? ==> r == CheckError(500, "Failed to check username")
    ensures ParamOr(username, "") != "" && db.Some? ==>
      r.Availability? &&
      (r.available <==> forall u :: u in db.value && u.username == username.value ==> !Counted(u, ExcludedId(excludeUserId)))
  {
    if ParamOr(username, "") == "" then CheckError(400, "Username is required")
    else if db.None? then CheckError(500, "Failed to check username")
    else Availability(FirstWithUsername(db.value, username.value, ExcludedId(excludeUserId)).None?)
  }

  /**
   * GET /api/users/check-phone. Same shape as the username check; the phone
   * text is compared exactly, with no normalisation.
   */
  function CheckPhone(db: Option<seq<User>>, phoneNumber: Option<string>, excludeUserId: Option<string>): (r: CheckResponse)
    requires NumericExclusion(excludeUserId)
    ensures ParamOr(phoneNumber, "") == "" ==> r == CheckError(400, "Phone number is required")
    ensures ParamOr(phoneNumber, "") != "" && db.None? ==> r == CheckError(500, "Failed to check phone number")
    ensures ParamOr(phoneNumber, "") != "" && db.Some? ==>
      r.Availability? &&
      (r.available <==> forall u :: u in db.value && u.phoneNumber == phoneNumber ==> !Counted(u, ExcludedId(excludeUserId)))
  {
    if ParamOr(phoneNumber, "") == "" then CheckError(400, "Phone number is required")
    else if db.None? then CheckError(500, "Failed to check phone number")
    else Availability(FirstWithPhone(db.value, phoneNumber.value, ExcludedId(excludeUserId)).None?)
  }

  /** The form passes `user.id.toString()`; reading it back excludes exactly that user. */
  lemma ExcludingOwnId(id: int)
    ensures NumericExclusion(Some(IntToDecimal(id)))
    ensures ExcludedId(Some(IntToDecimal(id))) == Some(id)
  {
    ParseIntOfDecimal(id);
    assert IntToDecimal(id) != "" by {
      if id >= 0 { assert |NatToDecimal(id)| >= 1; }
    }
  }

  /** A user editing their own record sees their own username as available when nobody else holds it. */
  lemma OwnUsernameAvailable(table: seq<User>, me: User)
    requires me in table
    requires me.username != ""
    requires forall u :: u in table && u.username == me.username ==> u.id == me.id
    ensures NumericExclusion(Some(IntToDecimal(me.id)))
    ensures CheckUsername(Some(table), Some(me.username), Some(IntToDecimal(me.id))) == Availability(true)
  {
    ExcludingOwnId(me.id);
  }

  /** Without excludeUserId every row counts: the username is available exactly when no row holds it. */
  lemma NoExclusionCountsEveryone(table: seq<User>, name: string)
    requires name != ""
    ensures CheckUsername(Some(table), Some(name), None) == Availability(!UsernameTaken(table, name))
  {
    if UsernameTaken(table, name) {
      var i :| 0 <= i < |table| && table[i].username == name;
      assert table[i] in table;
    }
  }

  /** After a user is created, its username is reported as taken. */
  lemma CreatedUsernameIsTaken(table: seq<User>, body: NewUser, hashed: string, newId: int, now: int)
    requires forall i :: 0 <= i < |table| ==> table[i].id != newId
    requires body.username != ""
    requires CreateUser(table, Some(body), false, hashed, newId, now).1.CreatedUser?
    ensures CheckUsername(Some(CreateUser(table, Some(body), false, hashed, newId, now).0), Some(body.username), None)
      == Availability(false)
  {
    var t := CreateUser(table, Some(body), false, hashed, newId, now).0;
    assert t[|table|] in t;
  }

  /** A username the check reports free is not refused as a duplicate by POST /api/users. */
  lemma AvailableUsernameIsNotRefused(table: seq<User>, body: NewUser, hashed: string, newId: int, now: int)
    requires forall i :: 0 <= i < |table| ==> table[i].id != newId
    requires CheckUsername(Some(table), Some(body.username), None) == Availability(true)
    ensures CreateUser(table, Some(body), false, hashed, newId, now).1 != CreateError(400, UsernameExistsMessage)
  {
    forall i | 0 <= i < |table| ensures table[i].username != body.username {
      assert table[i] in table;
    }
  }

  /** The phone check compares text exactly: the same number written with spaces is a different value. */
  lemma PhoneComparedExactly(u: User)
    requires u.phoneNumber == Some("+996555123456")
    ensures CheckPhone(Some([u]), Some("+996 555 123456"), None) == Availability(true)
    ensures CheckPhone(Some([u]), Some("+996555123456"), None) == Availability(false)
  {
  }
}
