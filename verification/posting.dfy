/** `create_post`, `delete_post` and `view_posts_by_platform`. */
module Posting {
  import opened Wrappers
  import opened Seqs
  import opened Text
  import opened Platforms
  import opened Schema
  import opened Auth

  /** The platforms chosen in the prompt loop, and how many input lines it consumed. */
  datatype Selection = Selection(platforms: seq<string>, consumed: nat)

  /** Prepends what earlier iterations of the prompt loop collected. */
  function Extend(prefix: seq<string>, used: nat, r: Option<Selection>): Option<Selection>
  {
    match r
    case None => None
    case Some(sel) => Some(Selection(prefix + sel.platforms, used + sel.consumed))
  }

  /**
   * The platform prompt loop of `create_post`, over the lines typed in order.
   * Each iteration reads a platform; an invalid one is rejected and the
   * iteration restarts without asking to continue. A valid one is appended
   * lower-cased, then one more line is read and the loop ends unless that
   * line, lower-cased, is `yes`. `None` means the input ran out first.
   */
  function CollectPlatforms(lines: seq<string>): (r: Option<Selection>)
    ensures r.Some? ==> 1 <= |r.value.platforms| && 2 <= r.value.consumed <= |lines|
    ensures r.Some? ==> forall k :: 0 <= k < |r.value.platforms| ==> r.value.platforms[k] in ValidPlatforms
    ensures r.Some? ==> forall k :: 0 <= k < |r.value.platforms| ==>
              exists i :: 0 <= i < r.value.consumed && IsValidPlatform(lines[i])
                          && r.value.platforms[k] == Lower(lines[i])
    ensures r.Some? ==> Lower(lines[r.value.consumed - 1]) != "yes"
    decreases |lines|
  {
    if |lines| == 0 then None
    else if !IsValidPlatform(lines[0]) then
      Extend([], 1, CollectPlatforms(lines[1..]))
    else if |lines| == 1 then None
    else if Lower(lines[1]) != "yes" then Some(Selection([Lower(lines[0])], 2))
    else Extend([Lower(lines[0])], 2, CollectPlatforms(lines[2..]))
  }

  lemma ExtendNothing(r: Option<Selection>)
    ensures Extend([], 0, r) == r
  {
    if r.Some? {
      assert [] + r.value.platforms == r.value.platforms;
    }
  }

  lemma ExtendTwice(p: seq<string>, i: nat, q: seq<string>, j: nat, r: Option<Selection>)
    ensures Extend(p, i, Extend(q, j, r)) == Extend(p + q, i + j, r)
  {
    if r.Some? {
      assert p + (q + r.value.platforms) == (p + q) + r.value.platforms;
    }
  }

  /** One iteration of the prompt loop, starting at line `i`. */
  lemma CollectStep(lines: seq<string>, i: nat)
    requires i < |lines|
    ensures !IsValidPlatform(lines[i]) ==>
              CollectPlatforms(lines[i..]) == Extend([], 1, CollectPlatforms(lines[i + 1..]))
    ensures IsValidPlatform(lines[i]) && i + 1 == |lines| ==> CollectPlatforms(lines[i..]) == None
    ensures IsValidPlatform(lines[i]) && i + 1 < |lines| && Lower(lines[i + 1]) != "yes" ==>
              CollectPlatforms(lines[i..]) == Some(Selection([Lower(lines[i])], 2))
    ensures IsValidPlatform(lines[i]) && i + 1 < |lines| && Lower(lines[i + 1]) == "yes" ==>
              CollectPlatforms(lines[i..]) == Extend([Lower(lines[i])], 2, CollectPlatforms(lines[i + 2..]))
  {
    var t := lines[i..];
    assert t[0] == lines[i];
    assert t[1..] == lines[i + 1..];
    if i + 1 < |lines| {
      assert t[1] == lines[i + 1];
      assert t[2..] == lines[i + 2..];
    }
  }

  /** The prompt loop as the source writes it: `while True` with `continue` and `break`. */
  method ReadPlatforms(lines: seq<string>) returns (r: Option<Selection>)
    ensures r == CollectPlatforms(lines)
  {
    var platforms: seq<string> := [];
    var i := 0;
    assert lines[0..] == lines;
    ExtendNothing(CollectPlatforms(lines));
    while true
      invariant 0 <= i <= |lines|
      invariant CollectPlatforms(lines) == Extend(platforms, i, CollectPlatforms(lines[i..]))
      decreases |lines| - i
    {
      if i == |lines| {
        assert lines[i..] == [];
        return None;
      }
      CollectStep(lines, i);
      var platform := lines[i];
      if !IsValidPlatform(platform) {
        ExtendTwice(platforms, i, [], 1, CollectPlatforms(lines[i + 1..]));
        assert platforms + [] == platforms;
        i := i + 1;
        continue;
      }
      if i + 1 == |lines| {
        return None;
      }
      var another := lines[i + 1];
      if Lower(another) != "yes" {
        platforms := platforms + [Lower(platform)];
        return Some(Selection(platforms, i + 2));
      }
      ExtendTwice(platforms, i, [Lower(platform)], 2, CollectPlatforms(lines[i + 2..]));
      platforms := platforms + [Lower(platform)];
      i := i + 2;
    }
  }

  /**
   * `create_post`: run the prompt loop, then send one row per selected
   * platform in a single batch. The batch is all-or-nothing: a driver error,
   * including a violated foreign key, rolls it back.
   */
  function CreatePost(s: Store, user: Session, content: string, lines: seq<string>, fault: bool)
    : (o: Outcome)
    ensures o.status == Done <==> CollectPlatforms(lines).Some? && !fault && IsUserId(s, user.id)
    ensures o.status != Done ==> o.store == s
    ensures o.status == Done ==>
              var chosen := CollectPlatforms(lines).value.platforms;
              && 1 <= |chosen|
              && |o.store.posts| == |s.posts| + |chosen|
              && o.store.posts[..|s.posts|] == s.posts
              && (forall k :: 0 <= k < |chosen| ==>
                    o.store.posts[|s.posts| + k] == Post(s.nextPostId + k, user.id, content, chosen[k]))
              && o.store.users == s.users
              && o.store.accounts == s.accounts
    ensures Valid(s) ==> Valid(o.store)
  {
    match CollectPlatforms(lines)
    case None => Outcome(s, AwaitingInput)
    case Some(sel) =>
      if fault || !IsUserId(s, user.id) then Outcome(s, StoreError)
      else
        var r := InsertPosts(s, user.id, content, sel.platforms);
        assert r.posts[..|s.posts|] == s.posts;
        Outcome(r, Done)
  }

  /**
   * After a committed `create_post` the author's listing gains the new rows
   * at its end, in platform order, and every other user's listing is as before.
   */
  lemma CreatePostListings(s: Store, user: Session, content: string, lines: seq<string>, uid: nat)
    requires CreatePost(s, user, content, lines, false).status == Done
    ensures var s' := CreatePost(s, user, content, lines, false).store;
            var rows := NewPosts(s.nextPostId, user.id, content, CollectPlatforms(lines).value.platforms);
            PostsOf(s', uid) == PostsOf(s, uid) + (if uid == user.id then rows else [])
  {
    var s' := CreatePost(s, user, content, lines, false).store;
    var rows := NewPosts(s.nextPostId, user.id, content, CollectPlatforms(lines).value.platforms);
    assert s'.posts == s.posts + rows;
    FilterAppend(s.posts, rows, OwnedBy(uid));
    if uid == user.id {
      FilterAll(rows, OwnedBy(uid));
    } else {
      FilterNone(rows, OwnedBy(uid));
    }
  }

  /**
   * `delete_post`: list the user's posts, take the 1-based `number` typed,
   * and delete the selected row by its id when `number` is within the list;
   * an empty list or an out-of-range number deletes nothing. `fault` is a
   * driver error on either statement, the `SELECT` or the `DELETE`: both
   * land in the same `except`, so the status is `StoreError` and nothing
   * is deleted.
   */
  function DeletePost(s: Store, user: Session, number: int, fault: bool): (o: Outcome)
    ensures o.status == Done <==> 1 <= number <= |PostsOf(s, user.id)| && !fault
    ensures o.status == StoreError <==> fault
    ensures o.status != Done ==> o.store == s
    ensures !fault && |PostsOf(s, user.id)| == 0 ==> o.status == NoPosts
    ensures !fault && 0 < |PostsOf(s, user.id)| && !(1 <= number <= |PostsOf(s, user.id)|) ==> o.status == InvalidPostNumber
    ensures o.status == Done ==>
              && o.store.users == s.users
              && o.store.accounts == s.accounts
              && (forall p :: p in o.store.posts <==> p in s.posts && p.id != PostsOf(s, user.id)[number - 1].id)
    ensures Valid(s) ==> Valid(o.store)
  {
    var mine := PostsOf(s, user.id);
    if fault then Outcome(s, StoreError)
    else if |mine| == 0 then Outcome(s, NoPosts)
    else
      var index := number - 1;
      if 0 <= index < |mine| then Outcome(DeletePostRow(s, mine[index].id), Done)
      else Outcome(s, InvalidPostNumber)
  }

  /**
   * A committed deletion splices out exactly one row of the posts table:
   * the one the user selected. No other row of any user changes.
   */
  lemma DeleteRemovesExactlyOneRow(s: Store, user: Session, number: int)
    requires Valid(s)
    requires DeletePost(s, user, number, false).status == Done
    ensures exists k :: 0 <= k < |s.posts| && s.posts[k] == PostsOf(s, user.id)[number - 1]
                        && DeletePost(s, user, number, false).store.posts == s.posts[..k] + s.posts[k + 1..]
  {
    var k := SelectedRow(s, user, number);
    DeleteSplicesRow(s, user, number, k);
  }

  /** The position in the posts table of the row the user selected. */
  lemma SelectedRow(s: Store, user: Session, number: int) returns (k: nat)
    requires 1 <= number <= |PostsOf(s, user.id)|
    ensures k < |s.posts| && s.posts[k] == PostsOf(s, user.id)[number - 1]
  {
    var mine := PostsOf(s, user.id);
    assert mine[number - 1] in mine;
    k :| 0 <= k < |s.posts| && s.posts[k] == mine[number - 1];
  }

  lemma DeleteSplicesRow(s: Store, user: Session, number: int, k: nat)
    requires Valid(s)
    requires DeletePost(s, user, number, false).status == Done
    requires k < |s.posts| && s.posts[k] == PostsOf(s, user.id)[number - 1]
    ensures DeletePost(s, user, number, false).store.posts == s.posts[..k] + s.posts[k + 1..]
  {
    var target := s.posts[k];
    forall i | 0 <= i < |s.posts|
      ensures (s.posts[i].id != target.id) <==> i != k
    {
      if i < k {
        assert PostId(s.posts[i]) < PostId(s.posts[k]);
      } else if k < i {
        assert PostId(s.posts[k]) < PostId(s.posts[i]);
      }
    }
    FilterDropsOne(s.posts, OtherThan(target.id), k);
  }

  /** Seen through the listings: the user's list loses exactly the entry at the selected position. */
  lemma DeleteShrinksOwnListing(s: Store, user: Session, number: int)
    requires Valid(s)
    requires DeletePost(s, user, number, false).status == Done
    ensures var mine := PostsOf(s, user.id);
            PostsOf(DeletePost(s, user, number, false).store, user.id) == mine[..number - 1] + mine[number..]
  {
    var k := SelectedRow(s, user, number);
    DeleteSplicesRow(s, user, number, k);
    var rest := s.posts[..k] + s.posts[k + 1..];
    FilterSpliceAt(s.posts, k, OwnedBy(user.id), PostId, number - 1);
    assert PostsOf(DeletePost(s, user, number, false).store, user.id) == Filter(rest, OwnedBy(user.id));
  }

  /** Deleting one of the user's posts leaves every other user's listing as it was. */
  lemma DeleteKeepsOtherListings(s: Store, user: Session, number: int, uid: nat)
    requires Valid(s)
    requires DeletePost(s, user, number, false).status == Done
    requires uid != user.id
    ensures PostsOf(DeletePost(s, user, number, false).store, uid) == PostsOf(s, uid)
  {
    var k := SelectedRow(s, user, number);
    DeleteSplicesRow(s, user, number, k);
    assert PostsOf(s, user.id)[number - 1] in PostsOf(s, user.id);
    assert !OwnedBy(uid)(s.posts[k]);
    FilterSpliceRejected(s.posts, k, OwnedBy(uid));
  }

  /** The distinct platforms among the posts: `set(post[0] for post in posts)`. */
  function PlatformsOf(ps: seq<Post>): set<string>
  {
    set p | p in ps :: p.platform
  }

  /** The `if post[0] == platform` condition of the inner loop. */
  function OnPlatform(k: string): Post -> bool
  {
    (p: Post) => p.platform == k
  }

  /**
   * The grouping `view_posts_by_platform` prints: one group per distinct
   * platform, holding the posts on that platform in retrieval order.
   */
  function GroupByPlatform(ps: seq<Post>): (g: map<string, seq<Post>>)
    ensures forall k :: k in g <==> exists p :: p in ps && p.platform == k
    ensures forall k :: k in g ==> g[k] != []
    ensures forall k, p :: k in g && p in g[k] ==> p in ps && p.platform == k
    ensures forall p :: p in ps ==> p.platform in g && p in g[p.platform]
  {
    var g := map k | k in PlatformsOf(ps) :: Filter(ps, OnPlatform(k));
    assert forall k :: k in g ==> g[k] == Filter(ps, OnPlatform(k));
    forall k | k in g
      ensures g[k] != []
    {
      var p :| p in ps && p.platform == k;
      assert OnPlatform(k)(p);
    }
    g
  }

  /** Each group is the list narrowed to one platform, so it keeps the list's order. */
  lemma GroupIsFilter(ps: seq<Post>, k: string)
    requires k in GroupByPlatform(ps)
    ensures GroupByPlatform(ps)[k] == Filter(ps, OnPlatform(k))
  {
  }

  /**
   * A group holds every post on its platform as often as the list does, and
   * nothing else: grouping neither drops nor duplicates a row.
   */
  lemma GroupKeepsCounts(ps: seq<Post>, k: string)
    requires k in GroupByPlatform(ps)
    ensures forall p :: multiset(GroupByPlatform(ps)[k])[p] == if p.platform == k then multiset(ps)[p] else 0
  {
    GroupIsFilter(ps, k);
    forall p
      ensures multiset(GroupByPlatform(ps)[k])[p] == if p.platform == k then multiset(ps)[p] else 0
    {
      FilterCount(ps, OnPlatform(k), p);
    }
  }

  /**
   * `view_posts_by_platform`: a read of the user's posts, grouped. The groups
   * are exactly the platforms the user has posted on, and each holds only
   * that user's posts on that platform.
   */
  function ViewPosts(s: Store, user: Session): (v: map<string, seq<Post>>)
    ensures forall k :: k in v <==> exists p :: p in s.posts && p.userId == user.id && p.platform == k
    ensures forall k, p :: k in v && p in v[k] ==> p in s.posts && p.userId == user.id && p.platform == k
    ensures forall p :: p in s.posts && p.userId == user.id ==> p.platform in v && p in v[p.platform]
  {
    GroupByPlatform(PostsOf(s, user.id))
  }

  /**
   * Each of the user's posts is listed exactly once in the whole view: once
   * under its own platform and under no other. It relies only on ids being
   * increasing, which `Valid` guarantees.
   */
  lemma ViewListsEachPostOnce(s: Store, user: Session, p: Post, k: string)
    requires SortedBy(s.posts, PostId)
    requires p in PostsOf(s, user.id)
    ensures k in ViewPosts(s, user) ==>
              multiset(ViewPosts(s, user)[k])[p] == if k == p.platform then 1 else 0
  {
    var mine := PostsOf(s, user.id);
    FilterKeepsOrder(s.posts, OwnedBy(user.id), PostId);
    SortedOccursOnce(mine, PostId, p);
    FilterCount(mine, OnPlatform(k), p);
  }

  /** Within each group the posts keep their retrieval (ascending id) order. */
  lemma ViewKeepsRetrievalOrder(s: Store, user: Session, k: string)
    requires SortedBy(s.posts, PostId)
    ensures k in ViewPosts(s, user) ==> SortedBy(ViewPosts(s, user)[k], PostId)
  {
    FilterKeepsOrder(s.posts, OwnedBy(user.id), PostId);
    FilterKeepsOrder(PostsOf(s, user.id), OnPlatform(k), PostId);
  }

  /** After a committed `create_post`, every new row shows up under its platform. */
  lemma CreatedPostsAppearInView(s: Store, user: Session, content: string, lines: seq<string>, k: nat)
    requires CreatePost(s, user, content, lines, false).status == Done
    requires k < |CollectPlatforms(lines).value.platforms|
    ensures var platform := CollectPlatforms(lines).value.platforms[k];
            var view := ViewPosts(CreatePost(s, user, content, lines, false).store, user);
            platform in view && Post(s.nextPostId + k, user.id, content, platform) in view[platform]
  {
    var s' := CreatePost(s, user, content, lines, false).store;
    var row := s'.posts[|s.posts| + k];
    assert row in s'.posts;
    assert row in PostsOf(s', user.id);
  }
}
