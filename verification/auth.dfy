/** `register_user` and `login_user`. */
module Auth {
  import opened Wrappers
  import opened Seqs
  import opened Schema

  /** The session dictionary `{id, username, email}` that `login_user` returns. */
  datatype Session = Session(id: nat, username: string, email: string)

  function SessionOf(u: User): Session
  {
    Session(u.id, u.username, u.email)
  }

  /** The session belongs to a user row of the store. */
  predicate SessionInStore(s: Store, sess: Session)
  {
    exists u :: u in s.users && SessionOf(u) == sess
  }

  /**
   * The email prompt loop: it re-prompts until an answer contains `@`.
   * Given the answers typed in order, the loop ends on the first valid one;
   * `None` means every answer was rejected and the loop is still prompting.
   */
  function ReadEmail(attempts: seq<string>): (r: Option<string>)
    ensures r.Some? ==> HasAt(r.value)
    ensures r.Some? ==> exists i :: 0 <= i < |attempts| && attempts[i] == r.value
                         && forall j :: 0 <= j < i ==> !HasAt(attempts[j])
    ensures r.None? <==> forall j :: 0 <= j < |attempts| ==> !HasAt(attempts[j])
  {
    match FirstIndex(attempts, HasAt)
    case None => None
    case Some(i) => Some(attempts[i])
  }

  /**
   * `register_user`: read the email, then insert one user row unless the
   * driver raises an error, in which case the insert is rolled back.
   */
  function Register(s: Store, username: string, emailAttempts: seq<string>, password: string, fault: bool)
    : (o: Outcome)
    ensures o.status == Done <==> ReadEmail(emailAttempts).Some? && !fault
    ensures o.status != Done ==> o.store == s
    ensures o.status == Done ==>
              && o.store.users == s.users + [User(s.nextUserId, username, ReadEmail(emailAttempts).value, password)]
              && HasAt(o.store.users[|s.users|].email)
              && o.store.accounts == s.accounts
              && o.store.posts == s.posts
    ensures Valid(s) ==> Valid(o.store)
  {
    match ReadEmail(emailAttempts)
    case None => Outcome(s, AwaitingInput)
    case Some(email) =>
      if fault then Outcome(s, StoreError)
      else Outcome(InsertUser(s, username, email, password), Done)
  }

  /** The `WHERE username = %s AND password = %s` condition. */
  predicate Matches(u: User, username: string, password: string)
  {
    u.username == username && u.password == password
  }

  /**
   * `login_user`: the first user row (in retrieval order) whose username and
   * password both equal the input; `None` when there is none or the driver
   * raises an error.
   */
  function Login(s: Store, username: string, password: string, fault: bool): (r: Option<Session>)
    ensures r.Some? <==> !fault && exists u :: u in s.users && Matches(u, username, password)
    ensures r.Some? ==> exists i :: 0 <= i < |s.users| && Matches(s.users[i], username, password)
                         && r.value == SessionOf(s.users[i])
                         && forall j :: 0 <= j < i ==> !Matches(s.users[j], username, password)
    ensures r.Some? ==> SessionInStore(s, r.value)
  {
    if fault then None
    else
      match FirstIndex(s.users, (u: User) => Matches(u, username, password))
      case None => None
      case Some(i) => Some(SessionOf(s.users[i]))
  }

  /**
   * A newly registered user can log in with the credentials they registered
   * with, and gets a session for the new row, provided no earlier row has the
   * same username and password (otherwise `fetchone` returns that earlier row).
   */
  lemma RegisterThenLogin(s: Store, username: string, emailAttempts: seq<string>, password: string)
    requires Register(s, username, emailAttempts, password, false).status == Done
    requires forall u :: u in s.users ==> !Matches(u, username, password)
    ensures Login(Register(s, username, emailAttempts, password, false).store, username, password, false)
            == Some(Session(s.nextUserId, username, ReadEmail(emailAttempts).value))
  {
    var s' := Register(s, username, emailAttempts, password, false).store;
    var r := Login(s', username, password, false);
    assert s'.users[|s.users|] in s'.users;
    var i :| 0 <= i < |s'.users| && Matches(s'.users[i], username, password)
             && r.value == SessionOf(s'.users[i]);
    forall j | 0 <= j < |s.users|
      ensures !Matches(s'.users[j], username, password)
    {
      assert s'.users[j] == s.users[j] && s.users[j] in s.users;
    }
  }

  /** If an earlier row already has those credentials, login still finds the earlier row. */
  lemma RegisterKeepsEarlierLogin(s: Store, username: string, emailAttempts: seq<string>, password: string)
    requires Register(s, username, emailAttempts, password, false).status == Done
    requires Login(s, username, password, false).Some?
    ensures Login(Register(s, username, emailAttempts, password, false).store, username, password, false)
            == Login(s, username, password, false)
  {
    var s' := Register(s, username, emailAttempts, password, false).store;
    var r := Login(s, username, password, false);
    var i :| 0 <= i < |s.users| && Matches(s.users[i], username, password)
             && r.value == SessionOf(s.users[i])
             && forall j :: 0 <= j < i ==> !Matches(s.users[j], username, password);
    assert s'.users[i] == s.users[i];
    var r' := Login(s', username, password, false);
    var i' :| 0 <= i' < |s'.users| && Matches(s'.users[i'], username, password)
              && r'.value == SessionOf(s'.users[i'])
              && forall j :: 0 <= j < i' ==> !Matches(s'.users[j], username, password);
    assert i' == i;
  }
}
