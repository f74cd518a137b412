/**
 * The menu loop: read a choice, dispatch it, repeat until "8". The session
 * (`current_user`) is part of the loop's state.
 */
module Menu {
  import opened Wrappers
  import opened Schema
  import opened Auth
  import Posting
  import Linking
  import Dashboard

  /**
   * One menu choice together with the answers its branch reads from the
   * console. Choices "1" to "8" map to the first eight constructors; any
   * other input is `Unrecognized`.
   */
  datatype Command =
    | Register(username: string, emailAttempts: seq<string>, password: string)
    | Login(username: string, password: string)
    | ShowDashboard
    | CreatePost(content: string, platformLines: seq<string>)
    | DeletePost(number: int)
    | ViewPosts
    | Connect(platform: string, accountName: string, age: string, city: string)
    | Exit
    | Unrecognized(choice: string)

  datatype State = State(store: Store, session: Option<Session>)

  /** What the action displays besides its status line. */
  datatype View =
    | NoView
    | BoardView(board: Dashboard.Board)
    | PostsView(groups: map<string, seq<Post>>)

  datatype Reply = Reply(state: State, status: Status, view: View)

  /** Choices 3 to 7 need a logged-in user. */
  predicate NeedsSession(cmd: Command)
  {
    cmd.ShowDashboard? || cmd.CreatePost? || cmd.DeletePost? || cmd.ViewPosts? || cmd.Connect?
  }

  /** The commands that issue a write statement. */
  predicate Writes(cmd: Command)
  {
    cmd.Register? || cmd.CreatePost? || cmd.DeletePost? || cmd.Connect?
  }

  /** The store is well formed and the session, if any, belongs to one of its users. */
  predicate Inv(st: State)
  {
    Valid(st.store) && (st.session.Some? ==> SessionInStore(st.store, st.session.value))
  }

  /**
   * One iteration of the loop. `fault` says that a store statement the
   * action issues raises a driver error (for `DeletePost`, either the
   * `SELECT` of the listing or the `DELETE`).
   */
  function Step(st: State, cmd: Command, fault: bool): (r: Reply)
    ensures NeedsSession(cmd) && st.session.None? ==> r == Reply(st, NotLoggedIn, NoView)
    ensures cmd.Login? ==>
              r.state == State(st.store, Auth.Login(st.store, cmd.username, cmd.password, fault))
    ensures !cmd.Login? ==> r.state.session == st.session
    ensures !Writes(cmd) ==> r.state.store == st.store
    ensures st.store.users <= r.state.store.users
    ensures Inv(st) ==> Inv(r.state)
  {
    match cmd
    case Register(username, emailAttempts, password) =>
      var o := Auth.Register(st.store, username, emailAttempts, password, fault);
      Reply(st.(store := o.store), o.status, NoView)
    case Login(username, password) =>
      var session := Auth.Login(st.store, username, password, fault);
      Reply(st.(session := session), if fault then StoreError else if session.Some? then Done else LoginFailed, NoView)
    case Exit =>
      Reply(st, Exited, NoView)
    case Unrecognized(_) =>
      Reply(st, InvalidChoice, NoView)
    case _ =>
      match st.session
      case None => Reply(st, NotLoggedIn, NoView)
      case Some(user) => SessionStep(st, user, cmd, fault)
  }

  /** Choices 3 to 7 once a user is logged in. */
  function SessionStep(st: State, user: Session, cmd: Command, fault: bool): (r: Reply)
    requires st.session == Some(user) && NeedsSession(cmd)
    ensures r.state.session == st.session
    ensures !Writes(cmd) ==> r.state.store == st.store
    ensures st.store.users <= r.state.store.users
    ensures Inv(st) ==> Inv(r.state)
  {
    match cmd
    case ShowDashboard =>
      if fault then Reply(st, StoreError, NoView)
      else Reply(st, Done, BoardView(Dashboard.Show(st.store, user)))
    case CreatePost(content, lines) =>
      var o := Posting.CreatePost(st.store, user, content, lines, fault);
      Reply(st.(store := o.store), o.status, NoView)
    case DeletePost(number) =>
      var o := Posting.DeletePost(st.store, user, number, fault);
      Reply(st.(store := o.store), o.status, NoView)
    case ViewPosts =>
      if fault then Reply(st, StoreError, NoView)
      else Reply(st, Done, PostsView(Posting.ViewPosts(st.store, user)))
    case Connect(platform, accountName, age, city) =>
      var o := Linking.Connect(st.store, user, platform, accountName, Linking.Extras(age, city), fault);
      Reply(st.(store := o.store), o.status, NoView)
  }

  /** One console input: the command and whether its store statement fails. */
  datatype Request = Request(cmd: Command, fault: bool)

  /**
   * The loop over a sequence of inputs; choice "8" ends it, and so does an
   * action whose prompt loop ran out of input: that loop would go on reading
   * every later line as another answer, so the menu is never reached again.
   * Every state the loop reaches from a well-formed one is well formed: every
   * email contains `@`, every stored platform is one of the four lower-case
   * names, every account name is non-empty, keys are unique, foreign keys
   * hold, and the session belongs to a stored user. Users are never changed
   * or removed.
   */
  function Run(st: State, requests: seq<Request>): (r: State)
    ensures Inv(st) ==> Inv(r)
    ensures st.store.users <= r.store.users
    decreases |requests|
  {
    if |requests| == 0 || requests[0].cmd.Exit? then st
    else
      var step := Step(st, requests[0].cmd, requests[0].fault);
      if step.status == AwaitingInput then step.state
      else Run(step.state, requests[1..])
  }

  /**
   * A registration whose email answers all lack `@` is still prompting, so
   * nothing that follows it in the input is ever dispatched: the store stays
   * as it was.
   */
  lemma UnfinishedRegistrationEndsRun(st: State, username: string, attempts: seq<string>, password: string,
                                      fault: bool, rest: seq<Request>)
    requires forall j :: 0 <= j < |attempts| ==> !HasAt(attempts[j])
    ensures Run(st, [Request(Register(username, attempts, password), fault)] + rest) == st
  {
    assert Auth.ReadEmail(attempts).None?;
  }

  /** The program starts from freshly created tables and no session. */
  const Initial: State := State(EmptyStore, None)

  lemma InitialIsValid()
    ensures Inv(Initial)
  {
  }

  /** A failed login, or one the driver aborts, ends the previous session, so choices 3 to 7 are refused afterwards. */
  lemma FailedLoginLogsOut(st: State, username: string, password: string, fault: bool, cmd: Command, fault2: bool)
    requires Auth.Login(st.store, username, password, fault).None?
    requires NeedsSession(cmd)
    ensures var after := Step(st, Login(username, password), fault);
            after.status == (if fault then StoreError else LoginFailed)
            && Step(after.state, cmd, fault2) == Reply(after.state, NotLoggedIn, NoView)
  {
  }
}
