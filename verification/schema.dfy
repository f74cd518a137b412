/**
 * The relational store as a value: the three tables `users`,
 * `social_media_accounts` and `posts`, each a sequence of rows in retrieval
 * order, plus the next value of each table's AUTO_INCREMENT primary key.
 */
module Schema {
  import opened Seqs
  import opened Platforms

  datatype User = User(id: nat, username: string, email: string, password: string)
  datatype Account = Account(id: nat, userId: nat, platform: string, accountName: string)
  datatype Post = Post(id: nat, userId: nat, content: string, platform: string)

  datatype Store = Store(
    users: seq<User>,
    accounts: seq<Account>,
    posts: seq<Post>,
    nextUserId: nat,
    nextAccountId: nat,
    nextPostId: nat)

  /** Freshly created tables: no rows, every counter at its first value. */
  const EmptyStore: Store := Store([], [], [], 1, 1, 1)

  /** What an action reports on the console. */
  datatype Status =
    | Done                // the action's statements were committed (or the read succeeded)
    | AwaitingInput       // an interactive loop ran out of input before it finished
    | StoreError          // the driver raised an error; the write was rolled back
    | InvalidPlatform
    | MissingAccountName
    | NoPosts
    | InvalidPostNumber
    | LoginFailed
    | NotLoggedIn
    | InvalidChoice
    | Exited

  datatype Outcome = Outcome(store: Store, status: Status)

  /** `re.search("@", email)` succeeds. */
  predicate HasAt(email: string)
  {
    '@' in email
  }

  function UserId(u: User): nat { u.id }
  function AccountId(a: Account): nat { a.id }
  function PostId(p: Post): nat { p.id }

  /** Primary keys handed out by AUTO_INCREMENT: positive, increasing, below the counter. */
  predicate KeysBelow<T(==)>(rows: seq<T>, key: T -> nat, next: nat)
  {
    && 1 <= next
    && SortedBy(rows, key)
    && forall x :: x in rows ==> 1 <= key(x) < next
  }

  /** The foreign key `user_id REFERENCES users(id)` is satisfied by `id`. */
  predicate IsUserId(s: Store, id: nat)
  {
    exists u :: u in s.users && u.id == id
  }

  /** Every state reachable through the application's operations satisfies this. */
  predicate Valid(s: Store)
  {
    && KeysBelow(s.users, UserId, s.nextUserId)
    && KeysBelow(s.accounts, AccountId, s.nextAccountId)
    && KeysBelow(s.posts, PostId, s.nextPostId)
    && (forall u :: u in s.users ==> HasAt(u.email))
    && (forall a :: a in s.accounts ==>
          a.platform in ValidPlatforms && a.accountName != "" && IsUserId(s, a.userId))
    && (forall p :: p in s.posts ==> p.platform in ValidPlatforms && IsUserId(s, p.userId))
  }

  /** The `WHERE user_id = uid` condition on posts. */
  function OwnedBy(uid: nat): Post -> bool
  {
    (p: Post) => p.userId == uid
  }

  /** The `WHERE id <> id` condition that a `DELETE ... WHERE id = id` leaves standing. */
  function OtherThan(id: nat): Post -> bool
  {
    (p: Post) => p.id != id
  }

  /** `SELECT * FROM posts WHERE user_id = uid`, in retrieval order. */
  function PostsOf(s: Store, uid: nat): seq<Post>
  {
    Filter(s.posts, OwnedBy(uid))
  }

  /** The `WHERE user_id = uid` condition on linked accounts. */
  function HeldBy(uid: nat): Account -> bool
  {
    (a: Account) => a.userId == uid
  }

  /** `SELECT * FROM social_media_accounts WHERE user_id = uid`, in retrieval order. */
  function AccountsOf(s: Store, uid: nat): seq<Account>
  {
    Filter(s.accounts, HeldBy(uid))
  }

  /**
   * `INSERT INTO users`: one row holding the given columns and the next id,
   * which no earlier row carries; the other tables are untouched.
   */
  function InsertUser(s: Store, username: string, email: string, password: string): (r: Store)
    ensures |r.users| == |s.users| + 1 && r.users[..|s.users|] == s.users
    ensures r.users[|s.users|] == User(s.nextUserId, username, email, password)
    ensures r.nextUserId == s.nextUserId + 1
    ensures Valid(s) ==> forall u :: u in s.users ==> u.id != r.users[|s.users|].id
    ensures r.accounts == s.accounts && r.posts == s.posts
    ensures Valid(s) && HasAt(email) ==> Valid(r)
  {
    s.(users := s.users + [User(s.nextUserId, username, email, password)],
       nextUserId := s.nextUserId + 1)
  }

  /**
   * `INSERT INTO social_media_accounts`: one row holding the given columns
   * and the next id, which no earlier row carries; the other tables are
   * untouched.
   */
  function InsertAccount(s: Store, uid: nat, platform: string, accountName: string): (r: Store)
    ensures |r.accounts| == |s.accounts| + 1 && r.accounts[..|s.accounts|] == s.accounts
    ensures r.accounts[|s.accounts|] == Account(s.nextAccountId, uid, platform, accountName)
    ensures r.nextAccountId == s.nextAccountId + 1
    ensures Valid(s) ==> forall a :: a in s.accounts ==> a.id != r.accounts[|s.accounts|].id
    ensures r.users == s.users && r.posts == s.posts
    ensures Valid(s) && IsUserId(s, uid) && platform in ValidPlatforms && accountName != "" ==> Valid(r)
  {
    s.(accounts := s.accounts + [Account(s.nextAccountId, uid, platform, accountName)],
       nextAccountId := s.nextAccountId + 1)
  }

  /** The rows `executemany` sends: one per platform, numbered from `first`. */
  function NewPosts(first: nat, uid: nat, content: string, platforms: seq<string>): (r: seq<Post>)
    ensures |r| == |platforms|
    ensures forall k :: 0 <= k < |r| ==> r[k] == Post(first + k, uid, content, platforms[k])
    decreases |platforms|
  {
    if |platforms| == 0 then []
    else [Post(first, uid, content, platforms[0])] + NewPosts(first + 1, uid, content, platforms[1..])
  }

  /** Every row of a batch belongs to its user, is on one of its platforms and has a fresh id. */
  lemma NewPostsRows(first: nat, uid: nat, content: string, platforms: seq<string>)
    ensures forall p :: p in NewPosts(first, uid, content, platforms) ==>
              p.userId == uid && p.platform in platforms && first <= p.id < first + |platforms|
  {
    var rows := NewPosts(first, uid, content, platforms);
    forall p | p in rows
      ensures p.userId == uid && p.platform in platforms && first <= p.id < first + |platforms|
    {
      var k :| 0 <= k < |rows| && rows[k] == p;
    }
  }

  /**
   * The batch `INSERT INTO posts`: the rows of `NewPosts` appended after the
   * earlier ones, one per platform with consecutive ids from the counter;
   * the other tables are untouched.
   */
  function InsertPosts(s: Store, uid: nat, content: string, platforms: seq<string>): (r: Store)
    ensures r.posts == s.posts + NewPosts(s.nextPostId, uid, content, platforms)
    ensures r.nextPostId == s.nextPostId + |platforms|
    ensures r.users == s.users && r.accounts == s.accounts
    ensures Valid(s) && IsUserId(s, uid) && (forall k :: 0 <= k < |platforms| ==> platforms[k] in ValidPlatforms)
            ==> Valid(r)
  {
    NewPostsRows(s.nextPostId, uid, content, platforms);
    s.(posts := s.posts + NewPosts(s.nextPostId, uid, content, platforms),
       nextPostId := s.nextPostId + |platforms|)
  }

  /** Removing rows from a key-sorted table leaves it key-sorted. */
  lemma DeleteKeepsOrder(s: Store, id: nat)
    ensures SortedBy(s.posts, PostId) ==> SortedBy(Filter(s.posts, OtherThan(id)), PostId)
  {
    if SortedBy(s.posts, PostId) {
      FilterKeepsOrder(s.posts, OtherThan(id), PostId);
    }
  }

  /**
   * `DELETE FROM posts WHERE id = id`: exactly the rows with that id leave
   * the table; the other tables and the counters are untouched.
   */
  function DeletePostRow(s: Store, id: nat): (r: Store)
    ensures forall p :: p in r.posts <==> p in s.posts && p.id != id
    ensures r.users == s.users && r.accounts == s.accounts
    ensures r.nextPostId == s.nextPostId
    ensures Valid(s) ==> Valid(r)
  {
    DeleteKeepsOrder(s, id);
    s.(posts := Filter(s.posts, OtherThan(id)))
  }
}
