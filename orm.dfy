/**
 * The slice of the object-relational mapper the API uses on the `user` table:
 * filtered queries (`.filter(...).all()` and `.one()`) and the flush that
 * writes pending changes and is where the schema's constraints are enforced.
 */
module Orm {
  import opened Tables

  datatype Option<T> = None | Some(value: T)

  /** The filters the API puts on a query of `user`. */
  datatype Criterion =
    | IdentityAndEmail(identity: string, email: string)
    | IdentityIs(identity: string)
    | UseridIs(userid: int)

  predicate Matches(u: User, c: Criterion)
  {
    match c
    case IdentityAndEmail(identity, email) => u.identity == identity && u.email == email
    case IdentityIs(identity) => u.identity == identity
    case UseridIs(userid) => u.userid == userid
  }

  /** The exceptions the modelled calls can raise. */
  datatype Exception =
    | NoResultFound         // `.one()` on an empty result
    | MultipleResultsFound  // `.one()` on more than one row
    | IntegrityError        // a duplicate primary key or email at flush
    | DataError             // a value wider than its column at flush

  /** How a call ends: it returns a value or raises. */
  datatype Outcome<T> = Returned(value: T) | Raised(exception: Exception)

  /** `query(User).filter(c).all()`: the matching rows, in table order. */
  function All(users: seq<User>, c: Criterion): (matches: seq<User>)
    ensures |matches| <= |users|
    ensures forall u :: u in matches <==> u in users && Matches(u, c)
  {
    if users == [] then []
    else if Matches(users[0], c) then [users[0]] + All(users[1..], c)
    else All(users[1..], c)
  }

  /** The position in the table of the first matching row, if any. */
  function First(users: seq<User>, c: Criterion): (i: Option<nat>)
    ensures i.Some? ==> i.value < |users| && Matches(users[i.value], c)
    ensures i.Some? ==> forall j :: 0 <= j < i.value ==> !Matches(users[j], c)
    ensures i.None? ==> forall j :: 0 <= j < |users| ==> !Matches(users[j], c)
  {
    if users == [] then None
    else if Matches(users[0], c) then Some(0)
    else match First(users[1..], c)
      case None => None
      case Some(k) => Some(k + 1)
  }

  /** `matches[0]` of a query is the table's first matching row. */
  lemma {:induction false} FirstOfAll(users: seq<User>, c: Criterion)
    ensures All(users, c) == [] <==> First(users, c).None?
    ensures First(users, c).Some? ==> All(users, c)[0] == users[First(users, c).value]
  {
    if users != [] && !Matches(users[0], c) {
      FirstOfAll(users[1..], c);
    }
  }

  /** The first row that matches, after only non-matching rows, is the one `First` finds. */
  lemma FirstAt(users: seq<User>, c: Criterion, i: nat)
    requires i < |users| && Matches(users[i], c)
    requires forall j :: 0 <= j < i ==> !Matches(users[j], c)
    ensures First(users, c) == Some(i)
  {
  }

  /** Filtering distributes over concatenation. */
  lemma {:induction false} AllAppend(a: seq<User>, b: seq<User>, c: Criterion)
    ensures All(a + b, c) == All(a, c) + All(b, c)
  {
    if a == [] {
      assert a + b == b;
    } else {
      assert (a + b)[0] == a[0];
      assert (a + b)[1..] == a[1..] + b;
      AllAppend(a[1..], b, c);
    }
  }

  /** When no two rows can both match, a query returns at most one row. */
  lemma {:induction false} AtMostOneMatch(users: seq<User>, c: Criterion)
    requires forall i, j :: 0 <= i < j < |users| ==> !(Matches(users[i], c) && Matches(users[j], c))
    ensures |All(users, c)| <= 1
  {
    if users != [] {
      var rest := users[1..];
      assert forall i, j :: 0 <= i < j < |rest| ==> rest[i] == users[i + 1] && rest[j] == users[j + 1];
      AtMostOneMatch(rest, c);
      if Matches(users[0], c) {
        forall k | 0 <= k < |rest| ensures !Matches(rest[k], c) {
          assert rest[k] == users[k + 1];
        }
        FirstOfAll(rest, c);
      }
    }
  }

  /** The primary key makes a query by `userid` return at most one row. */
  lemma UseridSelectsAtMostOne(users: seq<User>, userid: int)
    requires UniqueUserids(users)
    ensures |All(users, UseridIs(userid))| <= 1
  {
    AtMostOneMatch(users, UseridIs(userid));
  }

  /** The unique email makes a query by identity and email return at most one row. */
  lemma EmailSelectsAtMostOne(users: seq<User>, identity: string, email: string)
    requires UniqueEmails(users)
    ensures |All(users, IdentityAndEmail(identity, email))| <= 1
  {
    AtMostOneMatch(users, IdentityAndEmail(identity, email));
  }

  /** `query(User).filter(c).one()`: the position of the only matching row; raises when there is none or more than one. */
  function One(users: seq<User>, c: Criterion): (o: Outcome<nat>)
    ensures o == Raised(NoResultFound) <==> All(users, c) == []
    ensures o == Raised(MultipleResultsFound) <==> |All(users, c)| > 1
    ensures o.Returned? ==> o.value < |users| && Matches(users[o.value], c) && All(users, c) == [users[o.value]]
  {
    var matches := All(users, c);
    if matches == [] then Raised(NoResultFound)
    else if |matches| > 1 then Raised(MultipleResultsFound)
    else
      FirstOfAll(users, c);
      Returned(First(users, c).value)
  }

  /** `session.flush()`, also performed by a commit: the table the pending changes leave must satisfy the schema. */
  function Flush(users: seq<User>): (o: Outcome<()>)
    ensures o.Returned? <==> Constrained(users)
    ensures o.Raised? ==> o.exception == IntegrityError || o.exception == DataError
  {
    if !(UniqueUserids(users) && UniqueEmails(users)) then Raised(IntegrityError)
    else if !AllFit(users) then Raised(DataError)
    else Returned(())
  }
}
