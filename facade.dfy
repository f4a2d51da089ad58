/**
 * What each call of the `API` facade does to the store, as a function of the
 * store before the call: the answer it returns and the store after it.
 *
 * Each operation is written in two layers, as in the source: `XBody` is the
 * method body (queries, row changes, possibly an exception), and `XStep`
 * wraps it in `ApiCall`, the `@api` decorator, which runs the body in a
 * session that commits or rolls back and maps every exception to
 * `ERR_UNKNOWN`.
 */
module Facade {
  import opened Tables
  import opened Orm

  /** The two sentinels `API.ERR_UNKNOWN` and `API.ERR_NO_SUCH_USER`, returned (never raised). */
  datatype ApiError = ErrUnknown | ErrNoSuchUser

  /** `APIError.__str__`. */
  function Description(e: ApiError): string
  {
    match e
    case ErrUnknown => "Internal error"
    case ErrNoSuchUser => "No such user"
  }

  /** The descriptions tell the two sentinels apart. */
  lemma DescriptionIdentifiesError(a: ApiError, b: ApiError)
    ensures Description(a) == Description(b) <==> a == b
  {
  }

  /** What a facade call returns: its value or one of the two sentinels. */
  datatype Result<T> = Ok(value: T) | Err(error: ApiError)

  datatype LoginRequest = LoginRequest(identity: string, email: string, screenname: string)
  datatype ScreennameRequest = ScreennameRequest(userid: int, screenname: string)

  /** What `login` returns about the user it found or created. */
  datatype UserDetails = UserDetails(userid: int, screenname: string)

  /** What `get_user` returns. */
  datatype DetailedUser = DetailedUser(userid: int, identity: string, email: string, screenname: string)

  /** One call of `send_message`. */
  datatype Sent = Sent(recipient: string, message: string, identity: string)

  /**
   * The state the facade works on: the rows of `user` in insertion order,
   * the next value of `user_seq`, and every message handed to `send_message`.
   */
  datatype Db = Db(users: seq<User>, nextId: int, outbox: seq<Sent>)

  /** Every stored `userid` was drawn from `user_seq`, which starts at 1. */
  predicate IdsIssued(users: seq<User>, nextId: int)
  {
    1 <= nextId && forall i :: 0 <= i < |users| ==> 1 <= users[i].userid < nextId
  }

  /** The invariant of the store. */
  predicate Valid(db: Db)
  {
    Constrained(db.users) && IdsIssued(db.users, db.nextId)
  }

  function DetailsOf(u: User): UserDetails
  {
    UserDetails(u.userid, u.screenname)
  }

  /**
   * `exception_mapper`: whatever the wrapped call raised becomes
   * `ERR_UNKNOWN`; whatever it returned passes through unchanged.
   */
  function ExceptionMapper<T>(o: Outcome<Result<T>>): (r: Result<T>)
    ensures o.Raised? ==> r == Err(ErrUnknown)
    ensures o.Returned? ==> r == o.value
  {
    match o
    case Raised(_) => Err(ErrUnknown)
    case Returned(v) => v
  }

  /**
   * The session `create_session` gives the body: when the body returns, the
   * commit flushes its changes, and the store takes them if that flush
   * succeeds; when the body or the commit raises, the exception propagates
   * and the store is rolled back to `before`.
   */
  function CreateSession<T>(before: Db, body: Outcome<(Result<T>, Db)>): (r: (Outcome<Result<T>>, Db))
    ensures r.0.Returned? <==> body.Returned? && Constrained(body.value.1.users)
    ensures r.0.Returned? ==> r.0.value == body.value.0 && r.1 == body.value.1
    ensures r.0.Raised? ==> r.1 == before
  {
    match body
    case Raised(e) => (Raised(e), before)
    case Returned((answer, after)) =>
      match Flush(after.users)
      case Raised(e) => (Raised(e), before)
      case Returned(_) => (Returned(answer), after)
  }

  /** The `@api` decorator: `exception_mapper` applied outside `create_session`. */
  function ApiCall<T>(before: Db, body: Outcome<(Result<T>, Db)>): (r: (Result<T>, Db))
    ensures body.Returned? && Constrained(body.value.1.users) ==> r == body.value
    ensures !(body.Returned? && Constrained(body.value.1.users)) ==> r == (Err(ErrUnknown), before)
    ensures Valid(before) && (body.Returned? ==> IdsIssued(body.value.1.users, body.value.1.nextId)) ==> Valid(r.1)
  {
    var (o, after) := CreateSession(before, body);
    (ExceptionMapper(o), after)
  }

  /**
   * The two-valued error contract of a wrapped call: when the body itself
   * never answers `ERR_UNKNOWN`, the call answers `ERR_UNKNOWN` exactly when
   * something failed, that is, the body raised or the flush at commit did.
   */
  lemma ErrUnknownMeansFailure<T>(before: Db, body: Outcome<(Result<T>, Db)>)
    requires body.Returned? ==> body.value.0 != Err(ErrUnknown)
    ensures ApiCall(before, body).0 == Err(ErrUnknown) <==> !(body.Returned? && Constrained(body.value.1.users))
  {
  }

  /**
   * Body of `login`: the first row with this identity and email has its
   * `unsubscribed` flag cleared and is described; with no such row a new one
   * is added and flushed, which draws its `userid` from `user_seq`.
   */
  function LoginBody(db: Db, req: LoginRequest): Outcome<(Result<UserDetails>, Db)>
  {
    var c := IdentityAndEmail(req.identity, req.email);
    if All(db.users, c) != [] then
      FirstOfAll(db.users, c);
      var i := First(db.users, c).value;
      var user := db.users[i].(unsubscribed := false);
      Returned((Ok(DetailsOf(user)), db.(users := db.users[i := user])))
    else
      var user := User(db.nextId, req.identity, req.screenname, req.email, false);
      var after := db.(users := db.users + [user], nextId := db.nextId + 1);
      match Flush(after.users)
      case Raised(e) => Raised(e)
      case Returned(_) => Returned((Ok(DetailsOf(user)), after))
  }

  function LoginStep(db: Db, req: LoginRequest): (r: (Result<UserDetails>, Db))
    ensures Valid(db) ==> Valid(r.1)
    ensures r.0.Err? ==> r.0.error == ErrUnknown && r.1 == db
  {
    LoginIssuesIds(db, req);
    ApiCall(db, LoginBody(db, req))
  }

  /** Whatever row `login` touches or adds carries an id already drawn from `user_seq`. */
  lemma LoginIssuesIds(db: Db, req: LoginRequest)
    ensures Valid(db) && LoginBody(db, req).Returned? ==>
      IdsIssued(LoginBody(db, req).value.1.users, LoginBody(db, req).value.1.nextId)
  {
    var c := IdentityAndEmail(req.identity, req.email);
    FirstOfAll(db.users, c);
    if Valid(db) && All(db.users, c) != [] {
      var i := First(db.users, c).value;
      var t := db.users[i := db.users[i].(unsubscribed := false)];
      assert forall k :: 0 <= k < |t| ==> t[k].userid == db.users[k].userid;
    } else if Valid(db) {
      var t := db.users + [User(db.nextId, req.identity, req.screenname, req.email, false)];
      assert forall k :: 0 <= k < |db.users| ==> t[k] == db.users[k];
    }
  }

  /** Body of `unsubscribe`: delete the first row with this identity. */
  function UnsubscribeBody(db: Db, identity: string): Outcome<(Result<bool>, Db)>
  {
    var c := IdentityIs(identity);
    if All(db.users, c) == [] then
      Returned((Err(ErrNoSuchUser), db))
    else
      FirstOfAll(db.users, c);
      var i := First(db.users, c).value;
      Returned((Ok(true), db.(users := db.users[..i] + db.users[i + 1..])))
  }

  function UnsubscribeStep(db: Db, identity: string): (r: (Result<bool>, Db))
    ensures Valid(db) ==> Valid(r.1)
    ensures r.0.Ok? ==> r.0.value && |r.1.users| == |db.users| - 1
  {
    var c := IdentityIs(identity);
    FirstOfAll(db.users, c);
    ApiCall(db, UnsubscribeBody(db, identity))
  }

  /**
   * Body of `change_screenname`: `.one()` on the userid; its
   * `NoResultFound` is caught and answered with `ERR_NO_SUCH_USER`, any
   * other exception propagates.
   */
  function ChangeScreennameBody(db: Db, req: ScreennameRequest): Outcome<(Result<()>, Db)>
  {
    match One(db.users, UseridIs(req.userid))
    case Raised(e) =>
      if e == NoResultFound then Returned((Err(ErrNoSuchUser), db)) else Raised(e)
    case Returned(i) =>
      Returned((Ok(()), db.(users := db.users[i := db.users[i].(screenname := req.screenname)])))
  }

  function ChangeScreennameStep(db: Db, req: ScreennameRequest): (r: (Result<()>, Db))
    ensures Valid(db) ==> Valid(r.1)
    ensures r.1.nextId == db.nextId && r.1.outbox == db.outbox && |r.1.users| == |db.users|
  {
    ApiCall(db, ChangeScreennameBody(db, req))
  }

  /** Body of `get_user`: describe the first row with this userid. */
  function GetUserBody(db: Db, userid: int): Outcome<(Result<DetailedUser>, Db)>
  {
    var matches := All(db.users, UseridIs(userid));
    if matches == [] then
      Returned((Err(ErrNoSuchUser), db))
    else
      var user := matches[0];
      Returned((Ok(DetailedUser(user.userid, user.identity, user.email, user.screenname)), db))
  }

  function GetUserStep(db: Db, userid: int): (r: (Result<DetailedUser>, Db))
    ensures r.1 == db
  {
    ApiCall(db, GetUserBody(db, userid))
  }

  /** Body of `love`: hand the message to `send_message` for the first row with this userid. */
  function LoveBody(db: Db, userid: int, message: string): Outcome<(Result<()>, Db)>
  {
    var matches := All(db.users, UseridIs(userid));
    if matches == [] then
      Returned((Err(ErrNoSuchUser), db))
    else
      var user := matches[0];
      Returned((Ok(()), db.(outbox := db.outbox + [Sent(user.email, message, user.identity)])))
  }

  function LoveStep(db: Db, userid: int, message: string): (r: (Result<()>, Db))
    ensures Valid(db) ==> Valid(r.1)
    ensures r.1.users == db.users && r.1.nextId == db.nextId
  {
    ApiCall(db, LoveBody(db, userid, message))
  }

  /** No body answers `ERR_UNKNOWN` itself: the sentinel only ever comes from `exception_mapper`. */
  lemma BodiesNeverAnswerUnknown(db: Db, req: LoginRequest, identity: string, change: ScreennameRequest, userid: int, message: string)
    ensures LoginBody(db, req).Returned? ==> LoginBody(db, req).value.0 != Err(ErrUnknown)
    ensures UnsubscribeBody(db, identity).Returned? ==> UnsubscribeBody(db, identity).value.0 != Err(ErrUnknown)
    ensures ChangeScreennameBody(db, change).Returned? ==> ChangeScreennameBody(db, change).value.0 != Err(ErrUnknown)
    ensures GetUserBody(db, userid).Returned? ==> GetUserBody(db, userid).value.0 != Err(ErrUnknown)
    ensures LoveBody(db, userid, message).Returned? ==> LoveBody(db, userid, message).value.0 != Err(ErrUnknown)
  {
  }

  /**
   * Every facade call answers `ERR_UNKNOWN` exactly when its body raised or
   * its commit failed; every other answer is the body's own.
   */
  lemma UnknownOnlyOnFailure(db: Db, req: LoginRequest, identity: string, change: ScreennameRequest, userid: int, message: string)
    ensures LoginStep(db, req).0 == Err(ErrUnknown) <==>
      !(LoginBody(db, req).Returned? && Constrained(LoginBody(db, req).value.1.users))
    ensures UnsubscribeStep(db, identity).0 == Err(ErrUnknown) <==>
      !(UnsubscribeBody(db, identity).Returned? && Constrained(UnsubscribeBody(db, identity).value.1.users))
    ensures ChangeScreennameStep(db, change).0 == Err(ErrUnknown) <==>
      !(ChangeScreennameBody(db, change).Returned? && Constrained(ChangeScreennameBody(db, change).value.1.users))
    ensures GetUserStep(db, userid).0 == Err(ErrUnknown) <==>
      !(GetUserBody(db, userid).Returned? && Constrained(GetUserBody(db, userid).value.1.users))
    ensures LoveStep(db, userid, message).0 == Err(ErrUnknown) <==>
      !(LoveBody(db, userid, message).Returned? && Constrained(LoveBody(db, userid, message).value.1.users))
  {
  }
}
