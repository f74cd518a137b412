# Social media management console, modelled in Dafny

This project models `social-media-management.py`. It is a menu-driven console
program that keeps users, linked social-media accounts and posts in three
relational tables.

The relational store is a value. `Schema.Store` holds the rows of `users`,
`social_media_accounts` and `posts` in retrieval order, plus the next value
of each table's AUTO_INCREMENT key. Every action is a pure function of the
store and the input it reads. An action that writes returns an `Outcome`,
which is the new store and the status the console reports. Login returns
the session or `None`. The dashboard returns a `Dashboard.Board`, and the
post view returns a map from platform to posts.

The model has these parts:

- `Platforms`: the `VALID_PLATFORMS` set and the case-insensitive check
  `platform.lower() in VALID_PLATFORMS`. Python's `str.lower()` is `Text.Lower`,
  restricted to ASCII.
- `Auth`: `register_user` with its email re-prompt loop, and `login_user`.
- `Posting`:
  - `create_post` with its platform prompt loop, written twice: once as a
    recursive function, once as the source's `while True` loop, and proved
    equal;
  - `delete_post`, with its 1-based selection;
  - `view_posts_by_platform`.
- `Linking`: `connect_social_media_account_with_keyword_arguments`.
- `Dashboard`: the data `display_dashboard` prints.
- `Menu`: the main loop. Choices 3 to 7 are refused without a session, and
  choice 2 overwrites the session, even with `None`. A run of the loop ends
  at choice 8, or at an action whose prompt loop ran out of input, since
  that loop would read every later line as another answer.
- `Scenarios`: worked sessions of the menu loop. The first starts from empty
  tables and registers alice, which yields the store `Scenarios.AliceOnly`.
  The linking and posting sessions start from that store.

The console input an action reads is a parameter. An interactive loop gets the
lines typed, in order. When those lines run out before the loop ends, the
status is `AwaitingInput`. The boolean `fault` stands for the database driver
raising an error on the action's statement. The write is then rolled back and
the store is left unchanged. A violated foreign key is such an error too:
`Schema.IsUserId` has to hold for the session's id.

`Schema.Valid` is the store invariant that every operation preserves:

- keys are positive, increasing and below their counter;
- every email contains `@`;
- every stored platform is one of the four lower-case names;
- every account name is non-empty;
- every `user_id` names a stored user.

`Menu.Inv` adds one more condition: the session belongs to a stored user.

## Model

| member | source | states |
|---|---|---|
| Text.Lower | social-media-management.py:151-155 | `str.lower()` on ASCII: the same length, each capital `A`-`Z` replaced by its small letter, every other character kept |
| Platforms.ValidPlatformsAreLower | social-media-management.py:26-27 | every supported platform name is written in lower case, so lower-casing an input can land on it |
| Platforms.AcceptedIffCaseVariant | social-media-management.py:150-155 | an input is accepted exactly when it spells one of the four names in some mix of cases; what is stored is then a supported name itself |
| Text.LowerEqualsIffIgnoreCase | social-media-management.py:151 | for a lower-case name `n`, `p.lower() == n` holds exactly when `p` equals `n` ignoring case |
| Text.LowerIsIdempotent | social-media-management.py:155 | a lower-cased platform has no capitals, and lower-casing it again changes nothing |
| Auth.ReadEmail | social-media-management.py:79-85 | the email loop ends on the first answer containing `@`, skipping every earlier answer; it keeps prompting exactly when no answer has `@` |
| Auth.Register | social-media-management.py:89-96 | a registration commits exactly when the email loop ends and the insert raises no error; it then appends one user row with the next id and the accepted email; otherwise the store is unchanged; the store invariant is kept |
| Auth.Login | social-media-management.py:105-117 | a session is returned exactly when some row has both the username and the password and no error is raised; it is the first such row's id, username and email, and it belongs to the store |
| Auth.RegisterThenLogin | social-media-management.py:90-111 | a user just registered logs in with the same credentials and gets the new row's id, when no earlier row has those credentials |
| Auth.RegisterKeepsEarlierLogin | social-media-management.py:105-106 | if an earlier row already has the credentials, registering again does not change whom login returns, because `fetchone` takes the first row |
| Dashboard.Lines | social-media-management.py:129-131 | one (platform, account name) line per account, and every line comes from an account |
| Dashboard.Show | social-media-management.py:125-138 | the dashboard lists exactly the accounts whose `user_id` is the session's id, one line each, and shows the session's username and email |
| Dashboard.ConnectShowsOnDashboard | social-media-management.py:248-250 | a committed link adds one line with the lower-cased platform at the end of the dashboard; a refused link leaves the dashboard unchanged |
| Linking.Connect | social-media-management.py:234-254 | an unknown platform is refused before the account name is checked; an empty account name is refused; otherwise one row with the lower-cased platform is appended unless the insert raises an error; nothing else changes; the invariant is kept |
| Linking.ConnectIgnoresExtras | social-media-management.py:231-235 | the optional age and city never affect what is stored or reported |
| Posting.CollectPlatforms | social-media-management.py:147-159 | the prompt loop selects at least one platform; every selected platform is a supported name and the lower-case form of an accepted line; the last line read is the answer that was not `yes` |
| Posting.ReadPlatforms | social-media-management.py:147-159 | the source's `while True` loop, with `continue` and `break`, selects exactly what the recursive definition selects |
| Posting.CreatePost | social-media-management.py:161-176 | a post commits exactly when the prompt loop ends, the batch raises no error and the user exists; it then appends one row per selected platform, in order, with consecutive ids; otherwise nothing is written; the invariant is kept |
| Schema.InsertUser | social-media-management.py:89-92 | the insert appends one user row holding the given username, email and password under the next id, which no earlier row has, and advances the counter; the earlier rows and the other tables are kept; the invariant is kept when the email has `@` |
| Schema.InsertAccount | social-media-management.py:246-250 | the insert appends one account row holding the given user id, platform and account name under the next id, which no earlier row has, and advances the counter; the earlier rows and the other tables are kept; the invariant is kept for a supported platform, a non-empty name and an existing user |
| Schema.DeletePostRow | social-media-management.py:196-198 | exactly the rows with the given id leave the posts table; the other tables and the counter are untouched; the invariant is kept |
| Schema.InsertPosts | social-media-management.py:165-170 | the batch insert appends, after the earlier rows, row k = (next id + k, user id, content, platform k) for each platform, advances the counter by the number of platforms, leaves the other tables alone, and keeps the store invariant |
| Posting.CreatePostListings | social-media-management.py:165-172 | after a committed post, the author's listing gains exactly the new rows at its end, and every other user's listing is unchanged |
| Posting.CreatedPostsAppearInView | social-media-management.py:210-221 | every row a committed post created appears in the grouped view under its platform |
| Posting.DeletePost | social-media-management.py:182-203 | a deletion commits exactly when the 1-based number is within the user's listing and neither statement raises an error; an error on the `SELECT` or the `DELETE` reports the error and deletes nothing; otherwise an empty listing reports no posts; any other number reports an invalid choice and deletes nothing; only the selected row leaves the table; the invariant is kept |
| Posting.DeleteRemovesExactlyOneRow | social-media-management.py:195-198 | a committed deletion removes exactly one position of the posts table, the selected row, and keeps every other row in order |
| Posting.DeleteShrinksOwnListing | social-media-management.py:189-198 | in the user's own numbered listing, exactly the entry at the typed number disappears |
| Posting.DeleteKeepsOtherListings | social-media-management.py:196-197 | other users' listings do not change when a post is deleted |
| Posting.GroupByPlatform | social-media-management.py:216-221 | there is one group per distinct platform among the posts; no group is empty; each group holds only posts on its platform, and every post is in its platform's group |
| Posting.GroupKeepsCounts | social-media-management.py:216-221 | a group holds each post on its platform exactly as often as the listing does, and no post on another platform |
| Posting.ViewPosts | social-media-management.py:206-224 | the view's groups are exactly the platforms the user has posted on; each group holds only that user's posts on that platform; every post of the user is in its platform's group |
| Posting.ViewListsEachPostOnce | social-media-management.py:216-221 | each of the user's posts appears exactly once in the whole view, under its own platform |
| Posting.ViewKeepsRetrievalOrder | social-media-management.py:210-221 | within a group, the posts keep ascending id order |
| Menu.Step | social-media-management.py:274-321 | choices 3 to 7 without a session report "log in first" and change nothing; a login replaces the session with its result; no other choice touches the session; reads leave the store unchanged; users are never removed; the invariant is kept |
| Menu.SessionStep | social-media-management.py:282-315 | with a session, choices 3 to 7 keep the session, only writers change the store, and the invariant is kept |
| Menu.Run | social-media-management.py:263-321 | any run of the loop from a valid state ends in a valid state, and the users table only grows |
| Menu.UnfinishedRegistrationEndsRun | social-media-management.py:79-85 | when no email answer has `@`, the email loop is still prompting, so no later input reaches the menu and the state is unchanged |
| Menu.InitialIsValid | social-media-management.py:29-71 | freshly created tables and no session satisfy the invariant |
| Menu.FailedLoginLogsOut | social-media-management.py:105-117 | a login that finds no row, or that the driver aborts, clears the earlier session; it reports invalid credentials, or the driver error; choices 3 to 7 are refused afterwards |
| Scenarios.RegisterAndLoginScenario | social-media-management.py:276-280 | alice registers after one rejected email, which yields the store `AliceOnly`; logging in with her password gives session 1, and a wrong password gives none |
| Scenarios.LinkScenario | social-media-management.py:307-313 | a case variant of twitter is linked and stored as `twitter`; an unknown platform is refused with the store unchanged; the dashboard shows the one link |
| Scenarios.ScenarioSelection | social-media-management.py:148-159 | twitter, yes, an invalid line, linkedin, no selects twitter and linkedin and reads five lines |
| Scenarios.PostScenario | social-media-management.py:288-291 | that selection stores two rows with ids 1 and 2, leaving exactly the store the view scenario starts from |
| Scenarios.TypedLinkScenario | social-media-management.py:307-313 | the linking session with `Twitter` then `Foo` typed |
| Scenarios.TypedPostScenario | social-media-management.py:288-291 | the posting session with `Twitter`, `YES`, `Foo`, `LinkedIn`, `no` typed |
| Scenarios.PostScenarioView | social-media-management.py:210-221 | the grouped view then has two groups, twitter and linkedin, each holding its row |

## Left out

- The MySQL connection is not modelled: opening it, creating the tables, and
  closing it at the end (lines 11-71 and 323-329). The tables are created
  with `CREATE TABLE IF NOT EXISTS` (lines 32, 46 and 61), so a run can start
  on empty tables, which is `Schema.EmptyStore`, or on tables that still hold
  rows from earlier runs. `Menu.Run` covers both starts: its `Inv(st)`
  premise holds for any existing rows that satisfy `Schema.Valid`, with no
  session. Exiting with status 1 when startup fails is not modelled.
- Console output is not modelled: the text printed, `capitalize()` on
  platform names, and the order in which `', '.join(VALID_PLATFORMS)` lists
  the names. The dashboard and view are returned as data.
- `Text.Lower` folds only the ASCII capitals `A`-`Z`. Python's `str.lower()`
  also folds non-ASCII letters.
- `int(input(...))` in `delete_post` (line 193) raises an uncaught
  `ValueError` on non-numeric input, and that ends the process. The model
  follows the code's arithmetic but takes the typed number as an integer
  already, so the crash is not modelled.
- Choice 8 calls `sys.exit()`. The model ends `Menu.Run` at that command
  instead.
- The column widths `VARCHAR(255)` and the 32-bit range of `INT` keys are not
  modelled. A too-long value is just one way the driver can raise an error,
  and that is covered by `fault`.
- An AUTO_INCREMENT value consumed by a rolled-back insert is not modelled.
  The model advances a counter only on commit. MySQL may skip values, so the
  ids the model assigns are the smallest the database could assign.
- The iteration order of the distinct platforms in `view_posts_by_platform`
  is Python set order. The view is a map, so this order is not modelled.
- The `age`/`city` echo is not modelled: it is console output only.
- Posting.CollectPlatforms: its contract states that each selected platform is
  the lower-case form of some accepted line before the last one read, but not
  which line. Its exact meaning is pinned down by `Posting.ReadPlatforms`,
  which is proved equal to it.
- The code never checks that the username is non-empty, so the model accepts
  any username.
- Auth.Login: the `WHERE username = %s AND password = %s` comparison is
  modelled as exact string equality. The table sets no collation, so the
  server's default applies. On a stock MySQL or MariaDB server that default
  ignores case, so the database would also match `ALICE`/`PW1` against
  `alice`/`pw1`, and the model does not. MySQL 8's default
  (`utf8mb4_0900_ai_ci`) also ignores accents, so `é` matches `e`. The PAD
  SPACE collations that MariaDB and MySQL 5.7 use by default also ignore
  trailing spaces, so `pw1 ` matches `pw1`. The model matches none of these.
- Auth.Login: none of the `SELECT`s (lines 105, 125, 182, 210) has an
  `ORDER BY`. The model takes retrieval order to be insertion order, which is
  ascending id. That choice decides which row `fetchone` returns when several
  match, the order of dashboard lines, and how `delete_post` numbers the
  user's posts. The database does not promise that order.
- The driver error of the `SELECT` inside `delete_post` and the one of the
  `DELETE` are folded into one `fault`. Both reach the same `except` at
  lines 202-203, and either way nothing is deleted. The model does not say
  which of the two statements failed.
