/** Runs of the handlers one after another on one store: repeated views and
    visits, a like toggled twice, and a category's life from its first post
    to the delete of its last. */
module Scenarios {
  import opened Entities
  import opened PostQueries
  import Integrity
  import Updates
  import opened Blog

  /** `n` detail requests for one post raise its views by exactly `n`. */
  method ViewRepeatedly(s: Store, id: Id, n: nat)
    requires s.Valid() && id in s.posts
    modifies s`posts
    ensures s.Valid() && id in s.posts
    ensures s.posts[id].views == old(s.posts[id].views) + n
    ensures s.posts == old(s.posts)[id := old(s.posts[id]).(views := old(s.posts[id].views) + n)]
  {
    var i := 0;
    while i < n
      invariant 0 <= i <= n
      invariant s.Valid() && id in s.posts
      invariant s.posts == old(s.posts)[id := old(s.posts[id]).(views := old(s.posts[id].views) + i)]
    {
      var r := s.PostDetail(id);
      i := i + 1;
    }
  }

  /** `n` visits take the visitor's views from `v0` to `v0 + n`. */
  method VisitRepeatedly(s: Store, n: nat)
    requires s.visitor.Some?
    modifies s`visitor
    ensures s.visitor == Some(old(s.visitor.value).(views := old(s.visitor.value.views) + n))
  {
    var i := 0;
    while i < n
      invariant 0 <= i <= n
      invariant s.visitor == Some(old(s.visitor.value).(views := old(s.visitor.value.views) + i))
    {
      var r := s.Visit();
      i := i + 1;
    }
  }

  /** In a consistent store, the same user toggling a like twice gives the
      post back its likes as a bag and its like count. */
  method LikeTwice(s: Store, id: Id, user: Id)
    requires s.Valid() && s.Consistent() && id in s.posts
    modifies s`posts
    ensures s.Valid() && s.Consistent() && id in s.posts
    ensures multiset(s.posts[id].likes) == multiset(old(s.posts[id].likes))
    ensures s.posts[id].likesCount == old(s.posts[id].likesCount)
    ensures user !in old(s.posts[id].likes) ==> s.posts[id].likes == old(s.posts[id].likes)
  {
    assert Integrity.LikesCounted(s.posts[id]);
    var first := s.ToggleLike(id, user);
    var second := s.ToggleLike(id, user);
    ToggleTwiceRestores(old(s.posts[id].likes), user);
  }

  /** The first post filed under `name` in a store without categories
      creates the category, holding just that post. */
  method FileFirst(s: Store, form: PostForm, actor: Id, now: Date) returns (p: Id, c: Id)
    requires s.Valid() && s.Consistent() && s.categories == map[]
    modifies s`posts, s`categories, s`users, s`nextId
    ensures s.Valid() && s.Consistent()
    ensures s.categories == map[c := Category(form.category, [p])]
    ensures p in s.posts && s.posts[p].creator == actor && s.posts[p].category == [c]
  {
    assert Integrity.CategoryNamed(s.categories, form.category).None?;
    p := s.CreatePost(form, actor, now);
    c := p + 1;
  }

  /** A second post filed under the name of the only category is appended
      to it. */
  method FileSecond(s: Store, form: PostForm, actor: Id, now: Date, c: Id, first: Id) returns (p: Id)
    requires s.Valid() && s.Consistent()
    requires s.categories == map[c := Category(form.category, [first])]
    modifies s`posts, s`categories, s`users, s`nextId
    ensures s.Valid() && s.Consistent()
    ensures p != first && s.categories == map[c := Category(form.category, [first, p])]
  {
    ghost var cats := s.categories;
    assert cats[c].categoryName == form.category;
    assert Integrity.CategoryNamed(cats, form.category) == Some(c);
    assert first in s.categories[c].posts;
    p := s.CreatePost(form, actor, now);
    assert [first] + [p] == [first, p];
    assert cats[c].(posts := cats[c].posts + [p]) == Category(form.category, [first, p]);
  }

  /** Deleting the first of a category's two posts leaves it with the
      second. */
  method DeleteFirstOfTwo(s: Store, actor: Id, c: Id, name: string, a: Id, b: Id) returns (r: Result<()>)
    requires s.Valid() && s.Consistent() && a != b
    requires s.categories == map[c := Category(name, [a, b])]
    modifies s`posts, s`comments, s`users, s`categories
    ensures s.Valid() && s.Consistent()
    ensures r.Ok? && s.categories == map[c := Category(name, [b])]
  {
    ghost var cats := s.categories;
    Integrity.DetachedAt(cats, a, c);
    assert Updates.Pull([a, b], a) == [b];
    assert Integrity.Detached(cats, a) == map[c := Category(name, [b])];
    r := s.DeletePost(a, actor);
    assert r.Ok?;
  }

  /** Deleting the only post of the only category removes the category. */
  method DeleteLast(s: Store, actor: Id, c: Id, name: string, b: Id) returns (r: Result<()>)
    requires s.Valid() && s.Consistent()
    requires s.categories == map[c := Category(name, [b])]
    modifies s`posts, s`comments, s`users, s`categories
    ensures s.Valid() && s.Consistent()
    ensures r.Ok? && s.categories == map[]
  {
    ghost var cats := s.categories;
    Integrity.DetachedAt(cats, b, c);
    assert Updates.Pull([b], b) == [];
    assert Integrity.Detached(cats, b) == map[];
    r := s.DeletePost(b, actor);
    assert r.Ok?;
  }

  /** A category's life: the first post filed under "Tech" creates it, the
      second is appended to it, deleting the first leaves it with the second
      only, and deleting the second removes it. */
  method TechCategory(hash: string -> string) returns (s: Store)
    ensures s.Valid() && s.Consistent()
    ensures Integrity.CategoryNamed(s.categories, "Tech") == None
  {
    s := new Store(None);
    var signup := s.Signup(SignupForm("U1", "u1", "secret", ""), hash);
    var u1 := 0;
    var hello, tech := FileFirst(s, PostForm("Hello", "", "", "", 7, "Tech"), u1, 1);
    var world := FileSecond(s, PostForm("World", "", "", "", 7, "Tech"), u1, 2, tech, hello);
    var first := DeleteFirstOfTwo(s, u1, tech, "Tech", hello, world);
    var second := DeleteLast(s, u1, tech, "Tech", world);
  }
}
