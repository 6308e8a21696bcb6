/** The reference graph between posts and categories, the uniqueness of
    category names and of login ids, and the category-side effect of a post
    delete, all stated on the collections as values. */
module Integrity {
  import opened Entities
  import opened Updates

  /** Posts and categories point at each other: every post is filed under
      exactly one category, which exists and lists it; every post a category
      lists exists and names that category; and no category is empty. */
  ghost predicate Linked(posts: map<Id, Post>, cats: map<Id, Category>) {
    && (forall p :: p in posts ==>
          |posts[p].category| == 1 && posts[p].category[0] in cats && p in cats[posts[p].category[0]].posts)
    && (forall c, p :: c in cats && p in cats[c].posts ==> p in posts && posts[p].category == [c])
    && (forall c :: c in cats ==> cats[c].posts != [])
  }

  /** No two categories carry the same name. */
  ghost predicate NamesUnique(cats: map<Id, Category>) {
    forall a, b :: a in cats && b in cats && cats[a].categoryName == cats[b].categoryName ==> a == b
  }

  /** No two users carry the same login id. */
  ghost predicate UserIdsUnique(users: map<Id, User>) {
    forall a, b :: a in users && b in users && users[a].userId == users[b].userId ==> a == b
  }

  /** A post's like count is the number of its likes, and no user likes
      it twice. */
  ghost predicate LikesCounted(post: Post) {
    post.likesCount == |post.likes| && NoRepeats(post.likes)
  }

  /** Every post's likes are counted. */
  ghost predicate AllLikesCounted(posts: map<Id, Post>) {
    forall p :: p in posts ==> LikesCounted(posts[p])
  }

  ghost predicate Consistent(users: map<Id, User>, posts: map<Id, Post>, cats: map<Id, Category>) {
    Linked(posts, cats) && NamesUnique(cats) && UserIdsUnique(users) && AllLikesCounted(posts)
  }

  /** `Category.findOne({ categoryName: name })`. */
  ghost function CategoryNamed(cats: map<Id, Category>, name: string): (r: Option<Id>)
    ensures r.Some? <==> exists c :: c in cats && cats[c].categoryName == name
    ensures r.Some? ==> r.value in cats && cats[r.value].categoryName == name
    ensures r.Some? ==> forall d :: d in cats && cats[d].categoryName == name ==> r.value <= d
  {
    var named := set c | c in cats && cats[c].categoryName == name;
    assert forall c :: c in cats && cats[c].categoryName == name ==> c in named;
    First(named)
  }

  /** The category `Category.findOneAndUpdate({ posts: id }, ...)` selects. */
  ghost function FirstContaining(cats: map<Id, Category>, id: Id): (r: Option<Id>)
    ensures r.Some? <==> exists c :: c in cats && id in cats[c].posts
    ensures r.Some? ==> r.value in cats && id in cats[r.value].posts
    ensures r.Some? ==> forall d :: d in cats && id in cats[d].posts ==> r.value <= d
  {
    var holding := set c | c in cats && id in cats[c].posts;
    assert forall c :: c in cats && id in cats[c].posts ==> c in holding;
    First(holding)
  }

  /** The categories after a delete of post `id`: the first category listing
      `id` has it pulled and is itself deleted if its list is then empty. */
  ghost function Detached(cats: map<Id, Category>, id: Id): (r: map<Id, Category>)
    ensures r.Keys <= cats.Keys
    ensures forall d :: d in r ==> r[d].categoryName == cats[d].categoryName
  {
    match FirstContaining(cats, id)
    case None => cats
    case Some(c) =>
      var kept := cats[c].(posts := Pull(cats[c].posts, id));
      if kept.posts == [] then cats - {c} else cats[c := kept]
  }

  /** When `c` is the least category listing `id`, it is the one a delete
      selects: it loses `id` and goes away when nothing else is left in it. */
  lemma DetachedAt(cats: map<Id, Category>, id: Id, c: Id)
    requires c in cats && id in cats[c].posts
    requires forall d :: d in cats && id in cats[d].posts ==> c <= d
    ensures FirstContaining(cats, id) == Some(c)
    ensures var kept := cats[c].(posts := Pull(cats[c].posts, id));
      Detached(cats, id) == if kept.posts == [] then cats - {c} else cats[c := kept]
  {
    var found := FirstContaining(cats, id);
    assert found.Some?;
    assert found.value <= c && c <= found.value;
  }

  /** When no category lists `id`, a delete leaves the categories alone. */
  lemma DetachedNone(cats: map<Id, Category>, id: Id)
    requires forall d :: d in cats ==> id !in cats[d].posts
    ensures FirstContaining(cats, id) == None
    ensures Detached(cats, id) == cats
  {
  }

  /** Under `Linked`, a post's own category is the one a delete selects, and
      the delete leaves that category in place exactly when it lists some
      other post, with `id` pulled from it; every other category is left as
      it was, and no remaining category lists `id`. */
  lemma DeleteDetachesOwnCategory(posts: map<Id, Post>, cats: map<Id, Category>, id: Id)
    requires Linked(posts, cats) && id in posts
    ensures FirstContaining(cats, id) == Some(posts[id].category[0])
    ensures var c := posts[id].category[0];
      && (c in Detached(cats, id) <==> exists q :: q in cats[c].posts && q != id)
      && (c in Detached(cats, id) ==> Detached(cats, id)[c].posts == Pull(cats[c].posts, id))
    ensures forall d :: d in cats && d != posts[id].category[0] ==> d in Detached(cats, id) && Detached(cats, id)[d] == cats[d]
    ensures forall d :: d in Detached(cats, id) ==> id !in Detached(cats, id)[d].posts
  {
    var c := posts[id].category[0];
    assert c in posts[id].category;
    var found := FirstContaining(cats, id);
    assert c in cats && id in cats[c].posts;
    assert found.Some? && found.value in posts[id].category;
    assert found == Some(c);
    var kept := cats[c].(posts := Pull(cats[c].posts, id));
    var cats' := Detached(cats, id);
    assert cats' == if kept.posts == [] then cats - {c} else cats[c := kept];
    if kept.posts == [] {
      forall q | q in cats[c].posts ensures q == id {
        assert q !in kept.posts;
      }
    } else {
      var q := kept.posts[0];
      assert q in kept.posts;
      assert q in cats[c].posts && q != id;
    }
  }

  /** A delete of post `id` keeps the graph linked. */
  lemma DeleteKeepsLinked(posts: map<Id, Post>, cats: map<Id, Category>, id: Id)
    requires Linked(posts, cats)
    ensures Linked(posts - {id}, Detached(cats, id))
  {
    if id !in posts {
      assert FirstContaining(cats, id).None?;
      assert posts - {id} == posts;
    } else {
      var c := posts[id].category[0];
      DeleteDetachesOwnCategory(posts, cats, id);
      var kept := cats[c].(posts := Pull(cats[c].posts, id));
      DetachOwnKeepsLinked(posts, cats, id, c, kept);
    }
  }

  /** The step of `DeleteKeepsLinked` where post `id` exists and is filed
      under `c`. */
  lemma DetachOwnKeepsLinked(posts: map<Id, Post>, cats: map<Id, Category>, id: Id, c: Id, kept: Category)
    requires Linked(posts, cats) && id in posts && posts[id].category == [c]
    requires kept == cats[c].(posts := Pull(cats[c].posts, id))
    ensures Linked(posts - {id}, if kept.posts == [] then cats - {c} else cats[c := kept])
  {
    var posts' := posts - {id};
    var cats' := if kept.posts == [] then cats - {c} else cats[c := kept];
    forall p | p in posts'
      ensures |posts'[p].category| == 1 && posts'[p].category[0] in cats'
      ensures p in cats'[posts'[p].category[0]].posts
    {
      assert posts'[p] == posts[p] && p != id;
      if posts[p].category[0] == c {
        assert p in kept.posts;
      }
    }
    forall d, p | d in cats' && p in cats'[d].posts
      ensures p in posts' && posts'[p].category == [d]
    {
      if d != c {
        assert cats'[d] == cats[d];
      } else {
        assert p in cats[c].posts && p != id;
      }
    }
    forall d | d in cats' ensures cats'[d].posts != [] {
      if d != c {
        assert cats'[d] == cats[d];
      }
    }
  }

  /** Filing a new post `p` under category `c` keeps the graph linked,
      whether `c` is an existing category that gets `p` appended or a new
      one holding just `p`. */
  lemma AttachKeepsLinked(posts: map<Id, Post>, cats: map<Id, Category>, p: Id, post: Post, c: Id, cat: Category)
    requires Linked(posts, cats)
    requires p !in posts
    requires post.category == [c]
    requires c in cats ==> cat.posts == cats[c].posts + [p]
    requires c !in cats ==> cat.posts == [p]
    ensures Linked(posts[p := post], cats[c := cat])
  {
    var posts' := posts[p := post];
    var cats' := cats[c := cat];
    forall q, d | q in posts' && d in posts'[q].category
      ensures d in cats' && q in cats'[d].posts
    {
      if q != p && d == c {
        assert q in cats[c].posts;
      }
    }
    forall d, q | d in cats' && q in cats'[d].posts
      ensures q in posts' && d in posts'[q].category
    {
      if d != c {
        assert q in cats[d].posts;
        assert q != p;
      } else if q != p {
        assert c in cats && q in cats[c].posts;
      }
    }
  }

  /** Filing under an existing category or under a fresh, so far unused
      name keeps category names unique. */
  lemma AttachKeepsNamesUnique(cats: map<Id, Category>, c: Id, cat: Category)
    requires NamesUnique(cats)
    requires c in cats ==> cat.categoryName == cats[c].categoryName
    requires c !in cats ==> forall d :: d in cats ==> cats[d].categoryName != cat.categoryName
    ensures NamesUnique(cats[c := cat])
  {
  }

  /** A whole delete keeps the store consistent, whatever it rewrites the
      acting user to as long as the login id stays; and under a consistent
      store it fails exactly when the post does not exist. */
  lemma DeleteKeepsConsistent(users: map<Id, User>, posts: map<Id, Post>, cats: map<Id, Category>, id: Id,
                              actor: Id, user: User)
    requires Consistent(users, posts, cats)
    requires actor in users ==> user.userId == users[actor].userId
    ensures var users' := if actor in users then users[actor := user] else users;
      Consistent(users', posts - {id}, Detached(cats, id))
    ensures FirstContaining(cats, id).None? <==> id !in posts
  {
    DeleteKeepsLinked(posts, cats, id);
    DetachKeepsNamesUnique(cats, id);
    if id in posts {
      DeleteDetachesOwnCategory(posts, cats, id);
    }
    if actor in users {
      UserRewriteKeepsUnique(users, actor, user);
    }
  }

  /** A delete renames no category, so category names stay unique. */
  lemma DetachKeepsNamesUnique(cats: map<Id, Category>, id: Id)
    requires NamesUnique(cats)
    ensures NamesUnique(Detached(cats, id))
  {
  }

  /** Any change to a post that leaves its category alone keeps the graph
      linked. */
  lemma PostRewriteKeepsLinked(posts: map<Id, Post>, cats: map<Id, Category>, id: Id, post: Post)
    requires Linked(posts, cats)
    requires id in posts && post.category == posts[id].category
    ensures Linked(posts[id := post], cats)
  {
  }

  /** Storing a post whose likes are counted, new or in place of another,
      keeps every post's likes counted. */
  lemma PostRewriteKeepsCounted(posts: map<Id, Post>, id: Id, post: Post)
    requires AllLikesCounted(posts) && LikesCounted(post)
    ensures AllLikesCounted(posts[id := post])
  {
  }

  /** Any change to a user that leaves its login id alone keeps login ids
      unique. */
  lemma UserRewriteKeepsUnique(users: map<Id, User>, id: Id, user: User)
    requires UserIdsUnique(users)
    requires id in users && user.userId == users[id].userId
    ensures UserIdsUnique(users[id := user])
  {
  }

  /** Adding a user under a new key with a login id nobody has keeps login
      ids unique. */
  lemma SignupKeepsUnique(users: map<Id, User>, id: Id, user: User)
    requires UserIdsUnique(users)
    requires id !in users
    requires forall k :: k in users ==> users[k].userId != user.userId
    ensures UserIdsUnique(users[id := user])
  {
  }
}
