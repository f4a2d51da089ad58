/**
 * The `user` table: the row type and the constraints its schema declares
 * (primary key `userid`, NOT NULL on every other column, the column widths,
 * and a unique `email`).
 */
module Tables {

  /** One row of `user`. Every column is NOT NULL, so no field is optional. */
  datatype User = User(userid: int, identity: string, screenname: string, email: string, unsubscribed: bool)

  /** Declared widths of the string columns. */
  const IdentityWidth: nat := 120
  const ScreennameWidth: nat := 20
  const EmailWidth: nat := 256

  /** The row's strings fit their declared columns. */
  predicate Fits(u: User)
  {
    |u.identity| <= IdentityWidth && |u.screenname| <= ScreennameWidth && |u.email| <= EmailWidth
  }

  function Userids(users: seq<User>): set<int>
  {
    set u | u in users :: u.userid
  }

  function Emails(users: seq<User>): set<string>
  {
    set u | u in users :: u.email
  }

  /** `userid` is the primary key. */
  predicate UniqueUserids(users: seq<User>)
  {
    forall i, j :: 0 <= i < j < |users| ==> users[i].userid != users[j].userid
  }

  /** `email` carries a unique constraint. */
  predicate UniqueEmails(users: seq<User>)
  {
    forall i, j :: 0 <= i < j < |users| ==> users[i].email != users[j].email
  }

  predicate AllFit(users: seq<User>)
  {
    forall i :: 0 <= i < |users| ==> Fits(users[i])
  }

  /** Everything the schema lets the table hold. */
  predicate Constrained(users: seq<User>)
  {
    UniqueUserids(users) && UniqueEmails(users) && AllFit(users)
  }

  /** Appending a row keeps the schema exactly when the row fits and reuses neither key. */
  lemma ConstrainedAppend(users: seq<User>, u: User)
    requires Constrained(users)
    ensures Constrained(users + [u]) <==> Fits(u) && u.userid !in Userids(users) && u.email !in Emails(users)
  {
    var t := users + [u];
    var n := |users|;
    assert t[n] == u;
    if Fits(u) && u.userid !in Userids(users) && u.email !in Emails(users) {
      forall i, j | 0 <= i < j < |t|
        ensures t[i].userid != t[j].userid && t[i].email != t[j].email
      {
        if j == n {
          assert t[i] == users[i];
          assert users[i] in users;
        } else {
          assert t[i] == users[i] && t[j] == users[j];
        }
      }
    }
    if Constrained(t) {
      forall v | v in users ensures v.userid != u.userid && v.email != u.email {
        var k :| 0 <= k < n && users[k] == v;
        assert t[k] == v;
      }
    }
  }

  /** Rewriting a row's non-key columns keeps the schema exactly when the new row fits. */
  lemma ConstrainedUpdate(users: seq<User>, i: nat, u: User)
    requires Constrained(users) && i < |users|
    requires u.userid == users[i].userid && u.email == users[i].email
    ensures Constrained(users[i := u]) <==> Fits(u)
  {
    var t := users[i := u];
    assert t[i] == u;
    assert forall k :: 0 <= k < |t| ==> t[k].userid == users[k].userid && t[k].email == users[k].email;
  }

  /** Deleting a row never breaks the schema. */
  lemma ConstrainedRemove(users: seq<User>, i: nat)
    requires Constrained(users) && i < |users|
    ensures Constrained(users[..i] + users[i + 1..])
  {
  }
}
