/**
 * `/api/user/profile`: reading the caller's profile and changing its name
 * and email, where an email that belongs to another user is refused.
 */
module ProfileRoute {
  import opened Wrappers
  import opened Types
  import opened Seqs
  import opened Strings
  import opened Store

  /** The parsed PUT body; an absent or `null` field is `None`. */
  datatype ProfileBody = ProfileBody(name: Option<string>, email: Option<string>)

  /** `!s?.trim()`: missing, or nothing but whitespace. */
  predicate Blank(s: Option<string>)
  {
    s.None? || Trim(s.value) == ""
  }

  function HasEmail(email: string): User -> bool
  {
    (u: User) => u.email == email
  }

  function HasId(id: string): User -> bool
  {
    (u: User) => u.id == id
  }

  /** `findUnique({ where: { email } })` followed by `existingUser.id !== id`. */
  predicate TakenByOther(db: Db, email: string, uid: string)
  {
    var i := FindIndex(db.users, HasEmail(email));
    i >= 0 && db.users[i].id != uid
  }

  /** The store after the caller's row gets the new name and email. */
  function Updated(db: Db, uid: string, name: string, email: string): Db
  {
    db.(users := MapWhere(db.users, HasId(uid), (u: User) => u.(name := name, email := email)))
  }

  /** No two users share an email, as the route's check intends. */
  ghost predicate EmailsUnique(db: Db)
  {
    forall i, j :: 0 <= i < j < |db.users| ==> db.users[i].email != db.users[j].email
  }

  ghost predicate IdsUnique(db: Db)
  {
    forall i, j :: 0 <= i < j < |db.users| ==> db.users[i].id != db.users[j].id
  }

  /** The session's email, when it has one, is the email stored for the session's user. */
  ghost predicate SessionCurrent(db: Db, session: Option<Session>)
    requires SignedInId(session).Some?
  {
    forall i :: 0 <= i < |db.users| && db.users[i].id == SignedInId(session).value ==>
      session.value.email.None? || session.value.email.value == db.users[i].email
  }

  /**
   * PUT as written. The guards run in order: no signed-in user id gives 401;
   * a body that does not parse gives 500; a blank name, then a blank email,
   * gives 400. The ownership check looks up the email as sent, untrimmed,
   * and only when it differs from the session's email; the update then
   * stores the trimmed name and email. An update of a user the store does
   * not hold fails with 500.
   */
  function PutAsWritten(db: Db, session: Option<Session>, body: Option<ProfileBody>): (h: Handled<User>)
    ensures h.response.status == 401 <==> SignedInId(session).None?
    ensures SignedInId(session).Some? ==>
      (h.response.status == 400 <==> (body.Some? &&
        (Blank(body.value.name) || Blank(body.value.email) ||
         (session.value.email != Some(body.value.email.value) &&
          TakenByOther(db, body.value.email.value, SignedInId(session).value)))))
    ensures h.response.Error? <==> h.response.status != 200
    ensures h.response.Error? ==> h.db == db
    ensures h.response.Ok? ==> body.Some? && !Blank(body.value.name) && !Blank(body.value.email)
    ensures h.response.Ok? ==> (h.response.status == 200 &&
      h.db == Updated(db, SignedInId(session).value, Trim(body.value.name.value), Trim(body.value.email.value)))
  {
    match SignedInId(session)
    case None => Handled(Error(401), db)
    case Some(uid) =>
      if body.None? then Handled(Error(500), db)
      else if Blank(body.value.name) then Handled(Error(400), db)
      else if Blank(body.value.email) then Handled(Error(400), db)
      else
        var email := body.value.email.value;
        if session.value.email != Some(email) && TakenByOther(db, email, uid) then Handled(Error(400), db)
        else if !HasUser(db, uid) then Handled(Error(500), db)
        else
          var name, stored := Trim(body.value.name.value), Trim(email);
          Handled(Ok(200, User(uid, name, stored)), Updated(db, uid, name, stored))
  }

  /** Whether PUT compares and looks up the trimmed email, the one it is about to store. */
  predicate EmailRefused(db: Db, session: Option<Session>, email: string)
    requires SignedInId(session).Some?
  {
    session.value.email != Some(Trim(email)) && TakenByOther(db, Trim(email), SignedInId(session).value)
  }

  /**
   * PUT with the email check made on the trimmed email. Each answer is
   * characterised: 401, then 500 for an unreadable body, then 400 for a
   * blank name or email or an email held by another user, then 500 for a
   * caller missing from the store; otherwise 200 with the stored row echoed.
   */
  function Put(db: Db, session: Option<Session>, body: Option<ProfileBody>): (h: Handled<User>)
    ensures h.response.status == 401 <==> SignedInId(session).None?
    ensures SignedInId(session).Some? ==>
      (h.response.status == 400 <==> (body.Some? &&
        (Blank(body.value.name) || Blank(body.value.email) || EmailRefused(db, session, body.value.email.value))))
    ensures SignedInId(session).Some? ==>
      (h.response.status == 500 <==> (body.None? ||
        (!Blank(body.value.name) && !Blank(body.value.email) && !EmailRefused(db, session, body.value.email.value) &&
         !HasUser(db, SignedInId(session).value))))
    ensures h.response.Error? <==> h.response.status != 200
    ensures h.response.Error? ==> h.db == db
    ensures h.response.Ok? ==> (h.response.status == 200 &&
      h.response.value == User(SignedInId(session).value, Trim(body.value.name.value), Trim(body.value.email.value)) &&
      h.db == Updated(db, SignedInId(session).value, Trim(body.value.name.value), Trim(body.value.email.value)))
  {
    match SignedInId(session)
    case None => Handled(Error(401), db)
    case Some(uid) =>
      if body.None? then Handled(Error(500), db)
      else if Blank(body.value.name) then Handled(Error(400), db)
      else if Blank(body.value.email) then Handled(Error(400), db)
      else if EmailRefused(db, session, body.value.email.value) then Handled(Error(400), db)
      else if !HasUser(db, uid) then Handled(Error(500), db)
      else
        var name, stored := Trim(body.value.name.value), Trim(body.value.email.value);
        Handled(Ok(200, User(uid, name, stored)), Updated(db, uid, name, stored))
  }

  /** After a successful PUT the caller's row holds the new values and every other row is untouched. */
  lemma PutChangesOnlyCaller(db: Db, session: Option<Session>, body: Option<ProfileBody>)
    requires Put(db, session, body).response.Ok?
    ensures var after := Put(db, session, body).db;
      |after.users| == |db.users| && after.boards == db.boards && after.tasks == db.tasks &&
      forall i :: 0 <= i < |db.users| ==>
        if db.users[i].id == SignedInId(session).value
        then after.users[i] == Put(db, session, body).response.value
        else after.users[i] == db.users[i]
  {
  }

  /**
   * With emails unique, the check on the trimmed email keeps them unique:
   * whatever a PUT answers, no two users end up sharing an email.
   */
  lemma {:induction false} PutKeepsEmailsUnique(db: Db, session: Option<Session>, body: Option<ProfileBody>)
    requires EmailsUnique(db) && IdsUnique(db)
    requires SignedInId(session).Some? ==> SessionCurrent(db, session)
    ensures EmailsUnique(Put(db, session, body).db)
  {
    var h := Put(db, session, body);
    if h.response.Ok? {
      var uid := SignedInId(session).value;
      assert HasUser(db, uid);
      FreeUnlessRefused(db, session, body.value.email.value);
      UpdateKeepsEmailsUnique(db, uid, Trim(body.value.name.value), Trim(body.value.email.value));
    }
  }

  /** An email the check lets through is held by no user other than the caller. */
  lemma FreeUnlessRefused(db: Db, session: Option<Session>, email: string)
    requires EmailsUnique(db)
    requires SignedInId(session).Some? && SessionCurrent(db, session)
    requires !EmailRefused(db, session, email) && HasUser(db, SignedInId(session).value)
    ensures forall m :: 0 <= m < |db.users| && db.users[m].id != SignedInId(session).value ==>
      db.users[m].email != Trim(email)
  {
    var uid, e := SignedInId(session).value, Trim(email);
    if session.value.email == Some(e) {
      var c :| 0 <= c < |db.users| && db.users[c].id == uid;
      assert db.users[c].email == e;
      forall m | 0 <= m < |db.users| && db.users[m].id != uid ensures db.users[m].email != e {
        OtherThanHolder(db, c, m);
      }
    } else {
      assert !TakenByOther(db, e, uid);
      forall m | 0 <= m < |db.users| && db.users[m].id != uid ensures db.users[m].email != e {
        LookupFree(db, uid, e, m);
      }
    }
  }

  /** With unique emails, a user other than the holder of an email does not hold it. */
  lemma OtherThanHolder(db: Db, c: nat, m: nat)
    requires EmailsUnique(db) && c < |db.users| && m < |db.users| && m != c
    ensures db.users[m].email != db.users[c].email
  {
    if m < c { } else { }
  }

  /** When the lookup finds nobody, or the caller, no other user holds the email. */
  lemma LookupFree(db: Db, uid: string, e: string, m: nat)
    requires EmailsUnique(db) && !TakenByOther(db, e, uid)
    requires m < |db.users| && db.users[m].id != uid
    ensures db.users[m].email != e
  {
    var k := FindIndex(db.users, HasEmail(e));
    if k >= 0 {
      assert db.users[k].id == uid && db.users[k].email == e;
      OtherThanHolder(db, k, m);
    } else {
      assert !HasEmail(e)(db.users[m]);
    }
  }

  /** Giving the caller an email no other user holds keeps emails unique. */
  lemma UpdateKeepsEmailsUnique(db: Db, uid: string, name: string, e: string)
    requires EmailsUnique(db) && IdsUnique(db)
    requires forall m :: 0 <= m < |db.users| && db.users[m].id != uid ==> db.users[m].email != e
    ensures EmailsUnique(Updated(db, uid, name, e))
  {
    var users := Updated(db, uid, name, e).users;
    forall i, j | 0 <= i < j < |users| ensures users[i].email != users[j].email {
      assert db.users[i].id != uid || db.users[j].id != uid;
    }
  }

  /** The example's user table, its caller and the request that sends another user's email padded. */
  function ExampleDb(): Db
  {
    Db([User("a", "Ann", "a@x"), User("b", "Bob", "b@x")], [], [])
  }

  function ExampleSession(): Option<Session>
  {
    Some(Session(Some("a"), Some("a@x")))
  }

  function PaddedBody(): Option<ProfileBody>
  {
    Some(ProfileBody(Some("Ann"), Some(" b@x")))
  }

  lemma PlainTrims()
    ensures TrimStart("b@x") == "b@x" && TrimEnd("b@x") == "b@x"
    ensures TrimStart("Ann") == "Ann" && TrimEnd("Ann") == "Ann"
  {
    assert !IsWhitespace('b') && !IsWhitespace('A');
    var b, ann := "b@x", "Ann";
    assert b[|b| - 1] == 'x' && ann[|ann| - 1] == 'n';
    assert !IsWhitespace('x') && !IsWhitespace('n');
  }

  lemma ExampleTrims()
    ensures Trim(" b@x") == "b@x" && Trim("b@x") == "b@x" && Trim("Ann") == "Ann"
  {
    PlainTrims();
    var padded := " b@x";
    assert IsWhitespace(padded[0]) && padded[1..] == "b@x";
  }

  /** The example starts from a store whose emails are unique and a current session. */
  lemma ExampleWellFormed()
    ensures EmailsUnique(ExampleDb()) && IdsUnique(ExampleDb())
    ensures SignedInId(ExampleSession()) == Some("a") && SessionCurrent(ExampleDb(), ExampleSession())
  {
  }

  /** As written, the padded email passes the check and, in a store without the unique index, two users end up sharing "b@x". */
  lemma {:induction false} PaddedEmailAsWritten()
    ensures PutAsWritten(ExampleDb(), ExampleSession(), PaddedBody()).response.Ok?
    ensures !EmailsUnique(PutAsWritten(ExampleDb(), ExampleSession(), PaddedBody()).db)
  {
    var db := ExampleDb();
    ExampleTrims();
    assert db.users[0].id == "a";
    assert FindIndex(db.users, HasEmail(" b@x")) == -1;
    var after := PutAsWritten(db, ExampleSession(), PaddedBody()).db;
    assert after.users[0].email == "b@x" && after.users[1].email == "b@x";
  }

  /** With the trimmed lookup the same request is refused with 400. */
  lemma {:induction false} PaddedEmailCorrected()
    ensures Put(ExampleDb(), ExampleSession(), PaddedBody()).response == Error(400)
  {
    var db := ExampleDb();
    ExampleTrims();
    assert FindIndex(db.users, HasEmail("b@x")) == 1;
  }

  /** GET: 401 without a signed-in user id, 404 when the store lacks the caller, else the caller's row. */
  function Get(db: Db, session: Option<Session>): (r: Response<User>)
    ensures r.Error? ==> r.status == 401 || r.status == 404
    ensures r.status == 401 <==> SignedInId(session).None?
    ensures r.status == 404 <==> SignedInId(session).Some? && !HasUser(db, SignedInId(session).value)
    ensures r.Ok? ==> r.status == 200 && r.value in db.users && r.value.id == SignedInId(session).value
  {
    match SignedInId(session)
    case None => Error(401)
    case Some(uid) =>
      var i := FindIndex(db.users, HasId(uid));
      if i < 0 then Error(404) else Ok(200, db.users[i])
  }
}
