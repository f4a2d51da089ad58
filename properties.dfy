/**
 * What each facade call promises, stated over the store before and after it,
 * and how calls combine.
 */
module Properties {
  import opened Tables
  import opened Orm
  import opened Facade

  /**
   * `login` on an existing identity and email: that pair picks exactly one
   * row (the email is unique); its details come back with the stored userid
   * and screenname whatever screenname was supplied, its `unsubscribed` flag
   * is cleared, and nothing else changes.
   */
  lemma LoginExisting(db: Db, req: LoginRequest, i: nat)
    requires Valid(db)
    requires First(db.users, IdentityAndEmail(req.identity, req.email)) == Some(i)
    ensures All(db.users, IdentityAndEmail(req.identity, req.email)) == [db.users[i]]
    ensures LoginStep(db, req).0 == Ok(UserDetails(db.users[i].userid, db.users[i].screenname))
    ensures LoginStep(db, req).1 == db.(users := db.users[i := db.users[i].(unsubscribed := false)])
  {
    var c := IdentityAndEmail(req.identity, req.email);
    FirstOfAll(db.users, c);
    EmailSelectsAtMostOne(db.users, req.identity, req.email);
    ConstrainedUpdate(db.users, i, db.users[i].(unsubscribed := false));
  }

  /**
   * `login` with no row for the identity and email: it succeeds exactly when
   * the new row fits its columns and its email is not taken, and then adds
   * one row at the end, with a userid no row had and `unsubscribed` false;
   * otherwise the flush fails, the answer is `ERR_UNKNOWN` and the store is
   * as before.
   */
  lemma LoginNew(db: Db, req: LoginRequest)
    requires Valid(db)
    requires First(db.users, IdentityAndEmail(req.identity, req.email)) == None
    ensures var user := User(db.nextId, req.identity, req.screenname, req.email, false);
      LoginStep(db, req).0.Ok? <==> Fits(user) && req.email !in Emails(db.users)
    ensures var user := User(db.nextId, req.identity, req.screenname, req.email, false);
      LoginStep(db, req).0.Ok? ==>
        && LoginStep(db, req).0.value == UserDetails(db.nextId, req.screenname)
        && db.nextId !in Userids(db.users)
        && LoginStep(db, req).1 == db.(users := db.users + [user], nextId := db.nextId + 1)
    ensures LoginStep(db, req).0.Err? ==> LoginStep(db, req) == (Err(ErrUnknown), db)
  {
    var c := IdentityAndEmail(req.identity, req.email);
    FirstOfAll(db.users, c);
    var user := User(db.nextId, req.identity, req.screenname, req.email, false);
    ConstrainedAppend(db.users, user);
    assert db.nextId !in Userids(db.users) by {
      forall u | u in db.users ensures u.userid != db.nextId {
        var k :| 0 <= k < |db.users| && db.users[k] == u;
      }
    }
  }

  /**
   * Logging in a second time with the same identity and email, whatever the
   * screenname, returns the same details and leaves the store as the first
   * login left it.
   */
  lemma LoginAgain(db: Db, req: LoginRequest, again: LoginRequest)
    requires Valid(db)
    requires again.identity == req.identity && again.email == req.email
    requires LoginStep(db, req).0.Ok?
    ensures LoginStep(LoginStep(db, req).1, again) == LoginStep(db, req)
  {
    var c := IdentityAndEmail(req.identity, req.email);
    var (r1, db1) := LoginStep(db, req);
    match First(db.users, c)
    case Some(i) =>
      LoginExisting(db, req, i);
      FirstAt(db1.users, c, i);
      LoginExisting(db1, again, i);
      assert db1.users[i := db1.users[i].(unsubscribed := false)] == db1.users;
    case None =>
      LoginNew(db, req);
      var n := |db.users|;
      assert db1.users[n] == User(db.nextId, req.identity, req.screenname, req.email, false);
      assert forall j :: 0 <= j < n ==> db1.users[j] == db.users[j];
      FirstAt(db1.users, c, n);
      LoginExisting(db1, again, n);
      assert db1.users[n := db1.users[n].(unsubscribed := false)] == db1.users;
  }

  /**
   * `unsubscribe`: with no row for the identity the answer is
   * `ERR_NO_SUCH_USER` and nothing changes; otherwise exactly the first such
   * row is deleted, the answer is `True`, and every other row stays in place,
   * including the other rows with the same identity.
   */
  lemma UnsubscribeDeletesFirst(db: Db, identity: string)
    requires Valid(db)
    ensures First(db.users, IdentityIs(identity)).None? ==>
      UnsubscribeStep(db, identity) == (Err(ErrNoSuchUser), db)
    ensures First(db.users, IdentityIs(identity)).Some? ==>
      var i := First(db.users, IdentityIs(identity)).value;
      && UnsubscribeStep(db, identity).0 == Ok(true)
      && UnsubscribeStep(db, identity).1 == db.(users := db.users[..i] + db.users[i + 1..])
      && |All(UnsubscribeStep(db, identity).1.users, IdentityIs(identity))| == |All(db.users, IdentityIs(identity))| - 1
  {
    var c := IdentityIs(identity);
    FirstOfAll(db.users, c);
    if First(db.users, c).Some? {
      var i := First(db.users, c).value;
      ConstrainedRemove(db.users, i);
      assert db.users == db.users[..i] + [db.users[i]] + db.users[i + 1..];
      AllAppend(db.users[..i] + [db.users[i]], db.users[i + 1..], c);
      AllAppend(db.users[..i], [db.users[i]], c);
      AllAppend(db.users[..i], db.users[i + 1..], c);
      assert All([db.users[i]], c) == [db.users[i]] by {
        assert [db.users[i]][1..] == [];
      }
    }
  }

  /** After `unsubscribe` deletes a row, `get_user` no longer finds its userid. */
  lemma UnsubscribedUserIsGone(db: Db, identity: string, i: nat)
    requires Valid(db)
    requires First(db.users, IdentityIs(identity)) == Some(i)
    ensures GetUserStep(UnsubscribeStep(db, identity).1, db.users[i].userid).0 == Err(ErrNoSuchUser)
  {
    UnsubscribeDeletesFirst(db, identity);
    var after := UnsubscribeStep(db, identity).1;
    var c := UseridIs(db.users[i].userid);
    assert forall k :: 0 <= k < |after.users| ==> after.users[k] == db.users[if k < i then k else k + 1];
    FirstAt(db.users, c, i);
    assert First(after.users, c).None?;
    FirstOfAll(after.users, c);
  }

  /**
   * `change_screenname`: an absent userid answers `ERR_NO_SUCH_USER`; on a
   * present one only that row's screenname changes, unless the new
   * screenname is wider than its column, when the commit fails and the
   * answer is `ERR_UNKNOWN` with nothing changed. The primary key rules out
   * `.one()` finding several rows.
   */
  lemma ChangeScreennameUpdatesOne(db: Db, req: ScreennameRequest)
    requires Valid(db)
    ensures One(db.users, UseridIs(req.userid)) != Raised(MultipleResultsFound)
    ensures First(db.users, UseridIs(req.userid)).None? ==>
      ChangeScreennameStep(db, req) == (Err(ErrNoSuchUser), db)
    ensures First(db.users, UseridIs(req.userid)).Some? && |req.screenname| <= ScreennameWidth ==>
      var i := First(db.users, UseridIs(req.userid)).value;
      ChangeScreennameStep(db, req) == (Ok(()), db.(users := db.users[i := db.users[i].(screenname := req.screenname)]))
    ensures First(db.users, UseridIs(req.userid)).Some? && |req.screenname| > ScreennameWidth ==>
      ChangeScreennameStep(db, req) == (Err(ErrUnknown), db)
  {
    var c := UseridIs(req.userid);
    FirstOfAll(db.users, c);
    UseridSelectsAtMostOne(db.users, req.userid);
    if First(db.users, c).Some? {
      var i := First(db.users, c).value;
      assert One(db.users, c) == Returned(i);
      ConstrainedUpdate(db.users, i, db.users[i].(screenname := req.screenname));
    }
  }

  /** After a successful `change_screenname`, `get_user` reports the new screenname. */
  lemma GetUserSeesNewScreenname(db: Db, req: ScreennameRequest)
    requires Valid(db)
    requires ChangeScreennameStep(db, req).0 == Ok(())
    ensures GetUserStep(ChangeScreennameStep(db, req).1, req.userid).0.Ok?
    ensures GetUserStep(ChangeScreennameStep(db, req).1, req.userid).0.value.screenname == req.screenname
  {
    ChangeScreennameUpdatesOne(db, req);
    var c := UseridIs(req.userid);
    var i := First(db.users, c).value;
    var after := ChangeScreennameStep(db, req).1;
    assert forall k :: 0 <= k < |after.users| ==> after.users[k].userid == db.users[k].userid;
    FirstAt(after.users, c, i);
    FirstOfAll(after.users, c);
  }

  /**
   * `get_user`: `ERR_NO_SUCH_USER` exactly when no row has the userid,
   * otherwise that row's userid, identity, email and screenname; the store
   * never changes.
   */
  lemma GetUserReads(db: Db, userid: int)
    requires Valid(db)
    ensures GetUserStep(db, userid).1 == db
    ensures GetUserStep(db, userid).0 == Err(ErrNoSuchUser) <==> userid !in Userids(db.users)
    ensures First(db.users, UseridIs(userid)).Some? ==>
      var u := db.users[First(db.users, UseridIs(userid)).value];
      GetUserStep(db, userid).0 == Ok(DetailedUser(u.userid, u.identity, u.email, u.screenname))
  {
    var c := UseridIs(userid);
    FirstOfAll(db.users, c);
    if First(db.users, c).None? {
      forall u | u in db.users ensures u.userid != userid {
        var k :| 0 <= k < |db.users| && db.users[k] == u;
      }
    } else {
      assert db.users[First(db.users, c).value] in db.users;
    }
  }

  /**
   * `love`: an absent userid answers `ERR_NO_SUCH_USER` and sends nothing;
   * otherwise exactly one message goes out, to the row's email, with the
   * given text and the row's identity, and the table is untouched.
   */
  lemma LoveSendsOne(db: Db, userid: int, message: string)
    requires Valid(db)
    ensures First(db.users, UseridIs(userid)).None? ==>
      LoveStep(db, userid, message) == (Err(ErrNoSuchUser), db)
    ensures First(db.users, UseridIs(userid)).Some? ==>
      var u := db.users[First(db.users, UseridIs(userid)).value];
      LoveStep(db, userid, message) == (Ok(()), db.(outbox := db.outbox + [Sent(u.email, message, u.identity)]))
  {
    FirstOfAll(db.users, UseridIs(userid));
  }
}
