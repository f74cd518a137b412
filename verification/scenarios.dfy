/** Worked sessions of the menu loop, from an empty store. */
module Scenarios {
  import opened Wrappers
  import opened Seqs
  import opened Text
  import opened Platforms
  import opened Schema
  import opened Auth
  import opened Menu
  import Dashboard
  import Posting

  /** Register alice, then log in with the right and with a wrong password. */
  lemma RegisterAndLoginScenario()
    ensures var r1 := Step(Initial, Register("alice", ["alice", "a@x.com"], "pw1"), false);
            && r1.status == Done
            && r1.state.store == AliceOnly
            && Step(r1.state, Login("alice", "pw1"), false).state.session == Some(Session(1, "alice", "a@x.com"))
            && Step(r1.state, Login("alice", "wrong"), false).state.session == None
  {
    var r1 := Step(Initial, Register("alice", ["alice", "a@x.com"], "pw1"), false);
    assert !HasAt("alice") && HasAt("a@x.com");
    assert r1.state.store.users == [User(1, "alice", "a@x.com", "pw1")];
    assert !Matches(r1.state.store.users[0], "alice", "wrong");
  }

  /** The store right after alice registered (see `RegisterAndLoginScenario`). */
  const AliceOnly: Store := EmptyStore.(users := [User(1, "alice", "a@x.com", "pw1")], nextUserId := 2)
  const Alice: Session := Session(1, "alice", "a@x.com")

  /** Link a spelling of twitter, then an unknown platform; only the first reaches the dashboard. */
  lemma LinkScenario(st: State, twitter: string, unknown: string)
    requires st == State(AliceOnly, Some(Alice))
    requires Lower(twitter) == "twitter" && !IsValidPlatform(unknown)
    ensures var r1 := Step(st, Connect(twitter, "alice_tw", "30", "Paris"), false);
            var r2 := Step(r1.state, Connect(unknown, "alice_foo", "", ""), false);
            && r1.status == Done
            && r2.status == InvalidPlatform && r2.state == r1.state
            && Step(r2.state, ShowDashboard, false).view
               == BoardView(Dashboard.Board([("twitter", "alice_tw")], "alice", "a@x.com"))
  {
    var linked := AliceOnly.(accounts := [Account(1, 1, "twitter", "alice_tw")], nextAccountId := 2);
    var after := State(linked, Some(Alice));
    TwitterLinked(twitter);
    UnknownRejected(linked, unknown);
    AliceBoard(linked);
    assert Step(st, Connect(twitter, "alice_tw", "30", "Paris"), false) == Reply(after, Done, NoView);
    assert Step(after, Connect(unknown, "alice_foo", "", ""), false) == Reply(after, InvalidPlatform, NoView);
  }

  /** An unknown platform is turned away before anything is written. */
  lemma UnknownRejected(s: Store, unknown: string)
    requires !IsValidPlatform(unknown)
    ensures Linking.Connect(s, Alice, unknown, "alice_foo", Linking.Extras("", ""), false) == Outcome(s, InvalidPlatform)
  {
  }

  /** Alice's dashboard after the twitter link: that one account and her profile. */
  lemma AliceBoard(linked: Store)
    requires linked == AliceOnly.(accounts := [Account(1, 1, "twitter", "alice_tw")], nextAccountId := 2)
    ensures Dashboard.Show(linked, Alice) == Dashboard.Board([("twitter", "alice_tw")], "alice", "a@x.com")
  {
    assert AccountsOf(linked, 1) == [Account(1, 1, "twitter", "alice_tw")];
  }

  /** Linking a spelling of twitter for alice stores one lowercase account row. */
  lemma TwitterLinked(twitter: string)
    requires Lower(twitter) == "twitter"
    ensures Linking.Connect(AliceOnly, Alice, twitter, "alice_tw", Linking.Extras("30", "Paris"), false)
            == Outcome(AliceOnly.(accounts := [Account(1, 1, "twitter", "alice_tw")], nextAccountId := 2), Done)
  {
    assert AliceOnly.users[0] in AliceOnly.users;
  }

  /**
   * A post on twitter and linkedin, with a rejected platform typed in
   * between, is stored once per platform and listed under both.
   */
  lemma PostScenario(st: State, first: string, yes: string, unknown: string, second: string, no: string)
    requires st == State(AliceOnly, Some(Alice))
    requires Lower(first) == "twitter" && Lower(yes) == "yes" && !IsValidPlatform(unknown)
    requires Lower(second) == "linkedin" && Lower(no) != "yes"
    ensures var r1 := Step(st, CreatePost("hello", [first, yes, unknown, second, no]), false);
            && r1.status == Done
            && r1.state.store.posts == [Post(1, 1, "hello", "twitter"), Post(2, 1, "hello", "linkedin")]
            && r1.state.store == AliceOnly.(posts := [Post(1, 1, "hello", "twitter"), Post(2, 1, "hello", "linkedin")],
                                            nextPostId := 3)
  {
    var lines := [first, yes, unknown, second, no];
    ScenarioSelection(lines);
    TwoPostsStored(lines);
    assert Step(st, CreatePost("hello", lines), false) == SessionStep(st, Alice, CreatePost("hello", lines), false);
  }

  /** Once the prompt loop has chosen twitter then linkedin, alice's post is stored as two rows. */
  lemma TwoPostsStored(lines: seq<string>)
    requires Posting.CollectPlatforms(lines) == Some(Posting.Selection(["twitter", "linkedin"], 5))
    ensures var o := Posting.CreatePost(AliceOnly, Alice, "hello", lines, false);
            && o.status == Done
            && o.store == AliceOnly.(posts := [Post(1, 1, "hello", "twitter"), Post(2, 1, "hello", "linkedin")],
                                     nextPostId := 3)
  {
    assert AliceOnly.users[0] in AliceOnly.users;
    var o := Posting.CreatePost(AliceOnly, Alice, "hello", lines, false);
    assert |o.store.posts| == 2;
    assert o.store.posts[0] == Post(1, 1, "hello", "twitter");
    assert o.store.posts[1] == Post(2, 1, "hello", "linkedin");
  }

  /** The view on the store that post leaves (see `PostScenario`): one group per platform, each holding its row. */
  lemma PostScenarioView(s: Store)
    requires s == AliceOnly.(posts := [Post(1, 1, "hello", "twitter"), Post(2, 1, "hello", "linkedin")],
                             nextPostId := 3)
    ensures var view := Posting.ViewPosts(s, Alice);
            && view.Keys == {"twitter", "linkedin"}
            && view["twitter"] == [Post(1, 1, "hello", "twitter")]
            && view["linkedin"] == [Post(2, 1, "hello", "linkedin")]
  {
    assert s.posts[0].userId == 1 && s.posts[1].userId == 1;
    FilterAll(s.posts, OwnedBy(1));
    TwoGroups(s.posts[0], s.posts[1]);
  }

  /** Two posts on different platforms form two one-post groups. */
  lemma TwoGroups(a: Post, b: Post)
    requires a.platform != b.platform
    ensures var g := Posting.GroupByPlatform([a, b]);
            && g.Keys == {a.platform, b.platform}
            && g[a.platform] == [a]
            && g[b.platform] == [b]
  {
    PairKeys(a, b);
    Posting.GroupIsFilter([a, b], a.platform);
    Posting.GroupIsFilter([a, b], b.platform);
    PairFilter(a, b, Posting.OnPlatform(a.platform));
    PairFilter(a, b, Posting.OnPlatform(b.platform));
  }

  lemma PairKeys(a: Post, b: Post)
    ensures Posting.GroupByPlatform([a, b]).Keys == {a.platform, b.platform}
  {
    assert a in [a, b] && b in [a, b];
  }

  lemma PairFilter(a: Post, b: Post, p: Post -> bool)
    ensures Filter([a, b], p) == (if p(a) then [a] else []) + (if p(b) then [b] else [])
  {
    assert [a, b][1..] == [b];
    assert [b][1..] == [];
  }

  lemma ScenarioSelection(lines: seq<string>)
    requires |lines| == 5
    requires Lower(lines[0]) == "twitter" && Lower(lines[1]) == "yes" && !IsValidPlatform(lines[2])
    requires Lower(lines[3]) == "linkedin" && Lower(lines[4]) != "yes"
    ensures Posting.CollectPlatforms(lines) == Some(Posting.Selection(["twitter", "linkedin"], 5))
  {
    Posting.CollectStep(lines, 3);
    var c3 := Posting.CollectPlatforms(lines[3..]);
    assert c3 == Some(Posting.Selection(["linkedin"], 2));
    Posting.CollectStep(lines, 2);
    assert [] + ["linkedin"] == ["linkedin"];
    Posting.CollectStep(lines, 0);
    assert lines[0..] == lines;
    assert ["twitter"] + ["linkedin"] == ["twitter", "linkedin"];
  }

  /** Spellings typed in the sessions below: mixed case folds onto the lowercase names. */
  lemma TwitterSpelling()
    ensures Lower("Twitter") == "twitter" && Lower("YES") == "yes" && Lower("no") != "yes"
  {
    assert |Lower("no")| == 2;
  }

  lemma LinkedInSpelling()
    ensures Lower("LinkedIn") == "linkedin"
  {
  }

  /** A spelling the sessions below reject. */
  lemma UnknownSpelling()
    ensures !IsValidPlatform("Foo")
  {
    assert |Lower("Foo")| == 3;
  }

  /** The linking session with the inputs typed as `Twitter` and then `Foo`. */
  lemma TypedLinkScenario()
    ensures var r1 := Step(State(AliceOnly, Some(Alice)), Connect("Twitter", "alice_tw", "30", "Paris"), false);
            var r2 := Step(r1.state, Connect("Foo", "alice_foo", "", ""), false);
            && r1.status == Done
            && r2.status == InvalidPlatform && r2.state == r1.state
            && Step(r2.state, ShowDashboard, false).view
               == BoardView(Dashboard.Board([("twitter", "alice_tw")], "alice", "a@x.com"))
  {
    TwitterSpelling();
    UnknownSpelling();
    LinkScenario(State(AliceOnly, Some(Alice)), "Twitter", "Foo");
  }

  /** The posting session with the lines typed as `Twitter`, `YES`, `Foo`, `LinkedIn`, `no`. */
  lemma TypedPostScenario()
    ensures var r1 := Step(State(AliceOnly, Some(Alice)), CreatePost("hello", ["Twitter", "YES", "Foo", "LinkedIn", "no"]), false);
            && r1.status == Done
            && r1.state.store.posts == [Post(1, 1, "hello", "twitter"), Post(2, 1, "hello", "linkedin")]
  {
    TwitterSpelling();
    LinkedInSpelling();
    UnknownSpelling();
    PostScenario(State(AliceOnly, Some(Alice)), "Twitter", "YES", "Foo", "LinkedIn", "no");
  }
}
