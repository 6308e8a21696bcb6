/** The parts of the post routes that only compute: the post list (a filter
    by category plus a sort newest first) and the like toggle's new list. */
module PostQueries {
  import opened Entities
  import opened Updates

  /** `likes` after the toggle of `user`: every occurrence removed when the
      user is listed, the user appended once otherwise. */
  function Toggled(likes: seq<Id>, user: Id): (r: seq<Id>)
    ensures user in likes ==> user !in r && forall y :: y != user ==> (y in r <==> y in likes)
    ensures user !in likes ==> r == likes + [user]
  {
    if user in likes then Pull(likes, user) else likes + [user]
  }

  /** Two toggles by the same user give back the likes the post had, as a
      bag and so in number, when that user was listed at most once; the very
      same list when the user was not listed. A listed user comes back at the
      end of the list, not where they were. */
  lemma ToggleTwiceRestores(likes: seq<Id>, user: Id)
    requires multiset(likes)[user] <= 1
    ensures multiset(Toggled(Toggled(likes, user), user)) == multiset(likes)
    ensures |Toggled(Toggled(likes, user), user)| == |likes|
    ensures user !in likes ==> Toggled(Toggled(likes, user), user) == likes
  {
    if user in likes {
      PullCount(likes, user);
      var once := Pull(likes, user);
      assert Toggled(once, user) == once + [user];
      assert multiset(once + [user]) == multiset(likes);
    } else {
      PullAppend(likes, [user], user);
      assert Pull([user], user) == [];
      assert likes + [] == likes;
    }
  }

  /** A toggle never lists a user twice when nobody was listed twice
      before, so the new like count is the number of distinct users who
      like the post. */
  lemma {:induction false} ToggleKeepsNoRepeats(likes: seq<Id>, user: Id)
    requires NoRepeats(likes)
    ensures NoRepeats(Toggled(likes, user))
  {
    if user in likes {
      PullCount(likes, user);
    } else {
      assert multiset(likes + [user]) == multiset(likes) + multiset{user};
    }
  }

  /** `posts` lists the posts newest first. */
  ghost predicate NewestFirst(order: seq<Id>, posts: map<Id, Post>) {
    forall i, j :: 0 <= i < j < |order| && order[i] in posts && order[j] in posts ==>
      posts[order[i]].date >= posts[order[j]].date
  }

  /** No post appears twice. */
  ghost predicate Distinct(order: seq<Id>) {
    forall i, j :: 0 <= i < j < |order| ==> order[i] != order[j]
  }

  /** Among a non-empty set of posts there is a newest one. */
  lemma {:induction false} NewestExists(ids: set<Id>, posts: map<Id, Post>)
    requires ids != {} && ids <= posts.Keys
    ensures exists m :: m in ids && forall q :: q in ids ==> posts[q].date <= posts[m].date
  {
    var x :| x in ids;
    var rest := ids - {x};
    if rest == {} {
      assert ids == {x};
    } else {
      NewestExists(rest, posts);
      var m :| m in rest && forall q :: q in rest ==> posts[q].date <= posts[m].date;
      var newest := if posts[x].date > posts[m].date then x else m;
      assert newest in ids;
      forall q | q in ids ensures posts[q].date <= posts[newest].date {
        if q != x { assert q in rest; }
      }
    }
  }

  /** `.sort({ date: -1 })` of the posts `ids`: every one of them exactly
      once, newest first. Posts with the same date come in an order the
      store does not promise; here, in whichever order the choice below
      picks. */
  ghost function SortNewestFirst(ids: set<Id>, posts: map<Id, Post>): (r: seq<Id>)
    requires ids <= posts.Keys
    ensures |r| == |ids|
    ensures forall q :: q in r <==> q in ids
    ensures Distinct(r)
    ensures NewestFirst(r, posts)
    decreases ids
  {
    if ids == {} then []
    else
      NewestExists(ids, posts);
      var m :| m in ids && forall q :: q in ids ==> posts[q].date <= posts[m].date;
      [m] + SortNewestFirst(ids - {m}, posts)
  }

  /** What `GET /api/post/list/:id/view` answers with. */
  datatype PostList = PostList(
    postsList: seq<Id>,
    categoryFindResult: map<Id, Category>,
    postCount: nat,
    visitorsCount: Option<Visitor>,
    id: Selector)

  /** Whether `post` is in what `Post.find({ category })` returns for the
      selector: every post for `all`, else the posts filed under the id. */
  predicate Selected(post: Post, sel: Selector) {
    sel.AllPosts? || sel.id in post.category
  }

  /** The list route: an unknown category id is an error; otherwise the
      selected posts, each once, newest first, with their number, every
      category and the visitor document. */
  ghost function ListPosts(posts: map<Id, Post>, cats: map<Id, Category>, visitor: Option<Visitor>, sel: Selector)
    : (r: Result<PostList>)
    ensures r.Err? <==> sel.InCategory? && sel.id !in cats
    ensures r.Err? ==> r.error == CategoryNotFound
    ensures r.Ok? ==> forall q :: q in r.value.postsList <==> q in posts && Selected(posts[q], sel)
    ensures r.Ok? ==> Distinct(r.value.postsList) && NewestFirst(r.value.postsList, posts)
    ensures r.Ok? ==> r.value.postCount == |r.value.postsList|
    ensures r.Ok? ==> r.value.categoryFindResult == cats && r.value.visitorsCount == visitor && r.value.id == sel
  {
    if sel.InCategory? && sel.id !in cats then Err(CategoryNotFound)
    else
      var found := set q | q in posts && Selected(posts[q], sel);
      var order := SortNewestFirst(found, posts);
      Ok(PostList(order, cats, |order|, visitor, sel))
  }
}
