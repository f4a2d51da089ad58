/**
 * The `API` facade as an object over the state its sessions reach: the rows
 * of `user`, the `user_seq` counter and the outbox of `send_message`. Each
 * method changes that state step by step, as the source body does, and
 * finishes through `Close`, the commit-or-rollback of `create_session` with
 * `exception_mapper` around it. Each method is proved to have exactly the
 * effect of the matching `Facade` step.
 */
module Api {
  import opened Tables
  import opened Orm
  import opened Facade

  /** Pair a body's outcome with the state it left. */
  function WithState<T>(o: Outcome<T>, db: Db): Outcome<(T, Db)>
  {
    match o
    case Raised(e) => Raised(e)
    case Returned(v) => Returned((v, db))
  }

  class API {
    var users: seq<User>
    var nextId: int
    var outbox: seq<Sent>

    function State(): Db
      reads this
    {
      Db(users, nextId, outbox)
    }

    ghost predicate Valid()
      reads this
    {
      Facade.Valid(State())
    }

    /**
     * Start-up: `API()` followed by `create_db()` on a fresh engine, which
     * leaves an empty `user` table and `user_seq` at its first value.
     */
    constructor ()
      ensures Valid()
      ensures users == [] && nextId == 1 && outbox == []
    {
      users, nextId, outbox := [], 1, [];
    }

    /**
     * End of a call: commit the body's changes if the flush at commit
     * succeeds; otherwise roll back to `before` and answer `ERR_UNKNOWN`.
     */
    method Close<T>(before: Db, outcome: Outcome<Result<T>>) returns (r: Result<T>)
      modifies this
      ensures (r, State()) == ApiCall(before, WithState(outcome, old(State())))
    {
      if outcome.Raised? || Flush(users).Raised? {
        users, nextId, outbox := before.users, before.nextId, before.outbox;
        r := Err(ErrUnknown);
      } else {
        r := outcome.value;
      }
    }

    method Login(req: LoginRequest) returns (r: Result<UserDetails>)
      requires Valid()
      modifies this
      ensures Valid()
      ensures (r, State()) == LoginStep(old(State()), req)
    {
      var before := State();
      var c := IdentityAndEmail(req.identity, req.email);
      var matches := All(users, c);
      var outcome: Outcome<Result<UserDetails>>;
      if matches != [] {
        FirstOfAll(users, c);
        var i := First(users, c).value;
        users := users[i := users[i].(unsubscribed := false)];
        outcome := Returned(Ok(DetailsOf(users[i])));
      } else {
        var user := User(nextId, req.identity, req.screenname, req.email, false);
        users, nextId := users + [user], nextId + 1;
        var flushed := Flush(users);
        if flushed.Raised? {
          outcome := Raised(flushed.exception);
        } else {
          outcome := Returned(Ok(DetailsOf(user)));
        }
      }
      r := Close(before, outcome);
    }

    method Unsubscribe(identity: string) returns (r: Result<bool>)
      requires Valid()
      modifies this
      ensures Valid()
      ensures (r, State()) == UnsubscribeStep(old(State()), identity)
    {
      var before := State();
      var c := IdentityIs(identity);
      var matches := All(users, c);
      var outcome: Outcome<Result<bool>>;
      if matches == [] {
        outcome := Returned(Err(ErrNoSuchUser));
      } else {
        FirstOfAll(users, c);
        var i := First(users, c).value;
        users := users[..i] + users[i + 1..];
        outcome := Returned(Ok(true));
      }
      r := Close(before, outcome);
    }

    method ChangeScreenname(req: ScreennameRequest) returns (r: Result<()>)
      requires Valid()
      modifies this
      ensures Valid()
      ensures (r, State()) == ChangeScreennameStep(old(State()), req)
    {
      var before := State();
      var outcome: Outcome<Result<()>>;
      match One(users, UseridIs(req.userid)) {
        case Raised(e) =>
          if e == NoResultFound {
            outcome := Returned(Err(ErrNoSuchUser));
          } else {
            outcome := Raised(e);
          }
        case Returned(i) =>
          users := users[i := users[i].(screenname := req.screenname)];
          outcome := Returned(Ok(()));
      }
      r := Close(before, outcome);
    }

    /** Reads only: the commit has nothing to write, so the state needs no restoring. */
    method GetUser(userid: int) returns (r: Result<DetailedUser>)
      requires Valid()
      ensures (r, State()) == GetUserStep(State(), userid)
    {
      var matches := All(users, UseridIs(userid));
      if matches == [] {
        r := Err(ErrNoSuchUser);
      } else {
        var user := matches[0];
        r := Ok(DetailedUser(user.userid, user.identity, user.email, user.screenname));
      }
    }

    method Love(userid: int, message: string) returns (r: Result<()>)
      requires Valid()
      modifies this
      ensures Valid()
      ensures (r, State()) == LoveStep(old(State()), userid, message)
    {
      var before := State();
      var matches := All(users, UseridIs(userid));
      var outcome: Outcome<Result<()>>;
      if matches == [] {
        outcome := Returned(Err(ErrNoSuchUser));
      } else {
        var user := matches[0];
        outbox := outbox + [Sent(user.email, message, user.identity)];
        outcome := Returned(Ok(()));
      }
      r := Close(before, outcome);
    }
  }
}
