/** The document store the routes work on, and each route handler of the
    post, user and visitor routers as a method that updates the store's
    collections one step at a time, in the handler's own order. Every
    `findByIdAndUpdate` on an id that does not exist is a step that changes
    nothing. */
module Blog {
  import opened Entities
  import opened Updates
  import Integrity
  import opened PostQueries
  import opened Accounts

  /** The document `Post.create` stores for the upload form: the form's
      fields, the authenticated user as creator, and the schema defaults. */
  function NewPost(form: PostForm, actor: Id, now: Date): (post: Post)
    ensures post.creator == actor && post.date == now
    ensures post.category == [] && post.comments == [] && post.views == 0
    ensures Integrity.LikesCounted(post)
  {
    Post(form.title, form.contents, form.previewContents, form.fileUrl,
         actor, [], [], 0, [], 0, now)
  }

  /** A user after `$pull: { posts: id, comments: { post_id: id } }`. */
  function Unlinked(u: User, id: Id): (r: User)
    ensures id !in r.posts && forall e :: e in r.comments ==> e.postId != id
    ensures forall q :: q != id ==> (q in r.posts <==> q in u.posts)
    ensures forall e: CommentRef :: e.postId != id ==> (e in r.comments <==> e in u.comments)
    ensures r.name == u.name && r.userId == u.userId && r.password == u.password && r.nickname == u.nickname
  {
    u.(posts := Pull(u.posts, id), comments := PullRefs(u.comments, id))
  }

  class Store {
    var users: map<Id, User>
    var posts: map<Id, Post>
    var categories: map<Id, Category>
    var comments: map<Id, Comment>
    /** The singleton visitor document, seeded outside the application. */
    var visitor: Option<Visitor>
    /** The next id to hand out. */
    var nextId: Id

    /** Every id in use was handed out before `nextId`. */
    ghost predicate Valid()
      reads this
    {
      && (forall k :: k in users ==> k < nextId)
      && (forall k :: k in posts ==> k < nextId)
      && (forall k :: k in categories ==> k < nextId)
      && (forall k :: k in comments ==> k < nextId)
    }

    /** The reference graph between posts and categories is linked and
        category names and login ids are unique. */
    ghost predicate Consistent()
      reads this
    {
      Integrity.Consistent(users, posts, categories)
    }

    /** An empty store whose visitor document is `seed`. */
    constructor (seed: Option<Visitor>)
      ensures Valid() && Consistent()
      ensures users == map[] && posts == map[] && categories == map[] && comments == map[]
      ensures visitor == seed
    {
      users, posts, categories, comments := map[], map[], map[], map[];
      visitor := seed;
      nextId := 0;
    }

    /** A fresh document id. */
    method NewId() returns (id: Id)
      requires Valid()
      modifies this`nextId
      ensures Valid()
      ensures id == old(nextId) && nextId == id + 1
      ensures id !in users && id !in posts && id !in categories && id !in comments
    {
      id := nextId;
      nextId := nextId + 1;
    }

    /** `POST /api/post` (routes/api/post.js:81-130): stores the post with
        the authenticated user as creator, files it under the category with
        the requested name (creating that category when there is none) and
        appends it to the user's posts. Answers with the new post's id. */
    method CreatePost(form: PostForm, actor: Id, now: Date) returns (p: Id)
      requires Valid()
      modifies this`posts, this`categories, this`users, this`nextId
      ensures Valid()
      ensures p == old(nextId) && p !in old(posts)
      ensures Integrity.CategoryNamed(old(categories), form.category).Some? ==>
        var c := Integrity.CategoryNamed(old(categories), form.category).value;
        && nextId == p + 1
        && categories == old(categories)[c := old(categories)[c].(posts := old(categories)[c].posts + [p])]
        && posts == old(posts)[p := NewPost(form, actor, now).(category := [c])]
      ensures Integrity.CategoryNamed(old(categories), form.category).None? ==>
        var c := p + 1;
        && nextId == p + 2 && c !in old(categories)
        && categories == old(categories)[c := Category(form.category, [p])]
        && posts == old(posts)[p := NewPost(form, actor, now).(category := [c])]
      ensures users == if actor in old(users)
                       then old(users)[actor := old(users)[actor].(posts := old(users)[actor].posts + [p])]
                       else old(users)
      ensures old(Consistent()) ==> Consistent()
    {
      p := InsertPost(form, actor, now);
      var found := FindCategoryNamed(form.category);
      var c: Id;
      ghost var cat: Category;
      if found.None? {
        c := InsertCategory(form.category);
        PushCategoryOnPost(p, c);
        PushPostOnCategory(c, p);
        cat := Category(form.category, [p]);
        assert [] + [p] == [p];
        assert categories == old(categories)[c := cat];
        assert NewPost(form, actor, now).category + [c] == [c];
      } else {
        c := found.value;
        PushPostOnCategory(c, p);
        SetPostCategory(p, c);
        cat := old(categories)[c].(posts := old(categories)[c].posts + [p]);
      }
      ghost var post := NewPost(form, actor, now).(category := [c]);
      assert posts == old(posts)[p := post];
      PushPostOnUser(actor, p);
      assert old(Consistent()) ==> Consistent() by {
        if old(Consistent()) {
          Integrity.AttachKeepsLinked(old(posts), old(categories), p, post, c, cat);
          Integrity.AttachKeepsNamesUnique(old(categories), c, cat);
          Integrity.PostRewriteKeepsCounted(old(posts), p, post);
          if actor in old(users) {
            Integrity.UserRewriteKeepsUnique(old(users), actor, old(users)[actor].(posts := old(users)[actor].posts + [p]));
          }
        }
      }
    }

    /** `Post.create` of the upload form under a fresh id. */
    method InsertPost(form: PostForm, actor: Id, now: Date) returns (p: Id)
      requires Valid()
      modifies this`posts, this`nextId
      ensures Valid()
      ensures p == old(nextId) && nextId == p + 1 && p !in old(posts)
      ensures posts == old(posts)[p := NewPost(form, actor, now)]
    {
      p := NewId();
      posts := posts[p := NewPost(form, actor, now)];
    }

    /** `Category.create({ categoryName: name })`: a new, empty category. */
    method InsertCategory(name: string) returns (c: Id)
      requires Valid()
      modifies this`categories, this`nextId
      ensures Valid()
      ensures c == old(nextId) && nextId == c + 1 && c !in old(categories)
      ensures categories == old(categories)[c := Category(name, [])]
    {
      c := NewId();
      categories := categories[c := Category(name, [])];
    }

    /** `Category.findOne({ categoryName: name })`: the first category with
        that name. */
    method FindCategoryNamed(name: string) returns (r: Option<Id>)
      ensures r == Integrity.CategoryNamed(categories, name)
    {
      var named := set c | c in categories && categories[c].categoryName == name;
      assert forall d :: d in categories && categories[d].categoryName == name ==> d in named;
      if named == {} {
        return None;
      }
      ghost var least := Least(named);
      var c :| c in named && forall d :: d in named ==> c <= d;
      var expected := Integrity.CategoryNamed(categories, name);
      assert expected.value <= c && c <= expected.value;
      r := Some(c);
    }

    /** `Post.findByIdAndUpdate(p, { $push: { category: c } })`. */
    method PushCategoryOnPost(p: Id, c: Id)
      requires Valid()
      modifies this`posts
      ensures Valid()
      ensures posts == if p in old(posts) then old(posts)[p := old(posts)[p].(category := old(posts)[p].category + [c])] else old(posts)
    {
      if p in posts {
        posts := posts[p := posts[p].(category := posts[p].category + [c])];
      }
    }

    /** `Post.findByIdAndUpdate(p, { category: c })`: the category array set
        to the single id. */
    method SetPostCategory(p: Id, c: Id)
      requires Valid()
      modifies this`posts
      ensures Valid()
      ensures posts == if p in old(posts) then old(posts)[p := old(posts)[p].(category := [c])] else old(posts)
    {
      if p in posts {
        posts := posts[p := posts[p].(category := [c])];
      }
    }

    /** `Category.findByIdAndUpdate(c, { $push: { posts: p } })`. */
    method PushPostOnCategory(c: Id, p: Id)
      requires Valid()
      modifies this`categories
      ensures Valid()
      ensures categories == if c in old(categories) then old(categories)[c := old(categories)[c].(posts := old(categories)[c].posts + [p])] else old(categories)
    {
      if c in categories {
        categories := categories[c := categories[c].(posts := categories[c].posts + [p])];
      }
    }

    /** `User.findByIdAndUpdate(actor, { $push: { posts: p } })`. */
    method PushPostOnUser(actor: Id, p: Id)
      requires Valid()
      modifies this`users
      ensures Valid()
      ensures users == if actor in old(users) then old(users)[actor := old(users)[actor].(posts := old(users)[actor].posts + [p])] else old(users)
    {
      if actor in users {
        users := users[actor := users[actor].(posts := users[actor].posts + [p])];
      }
    }

    /** `GET /api/post/:id/detail` (routes/api/post.js:133-143): counts one
        more view and answers with the post; a missing post is an error and
        nothing is written. */
    method PostDetail(id: Id) returns (r: Result<Post>)
      requires Valid()
      modifies this`posts
      ensures Valid()
      ensures id !in old(posts) ==> r == Err(PostNotFound) && posts == old(posts)
      ensures id in old(posts) ==>
        var seen := old(posts)[id].(views := old(posts)[id].views + 1);
        posts == old(posts)[id := seen] && r == Ok(seen)
      ensures old(Consistent()) ==> Consistent()
    {
      if id !in posts {
        return Err(PostNotFound);
      }
      var post := posts[id];
      post := post.(views := post.views + 1);
      posts := posts[id := post];
      r := Ok(post);
      if old(Consistent()) {
        Integrity.PostRewriteKeepsLinked(old(posts), categories, id, post);
        Integrity.PostRewriteKeepsCounted(old(posts), id, post);
      }
    }

    /** `GET /api/post/:id/comments` (routes/api/post.js:146-156): the
        post's comment ids; a missing post is an error. */
    method CommentList(id: Id) returns (r: Result<seq<Id>>)
      ensures id !in posts ==> r == Err(PostNotFound)
      ensures id in posts ==> r == Ok(posts[id].comments)
    {
      if id !in posts {
        return Err(PostNotFound);
      }
      r := Ok(posts[id].comments);
    }

    /** `POST /api/post/:id/comments` (routes/api/post.js:159-186): stores
        the comment for the post the body names (the URL's `urlId` is not
        used), appends it to that post and a `{post_id, comment_id}` entry to
        the commenting user; each append changes nothing when its target
        does not exist. Answers with the stored comment. */
    method AddComment(urlId: Id, form: CommentForm, now: Date) returns (cid: Id, comment: Comment)
      requires Valid()
      modifies this`comments, this`posts, this`users, this`nextId
      ensures Valid()
      ensures cid == old(nextId) && nextId == cid + 1 && cid !in old(comments)
      ensures comment == Comment(form.contents, form.userId, form.userName, form.id, now)
      ensures comments == old(comments)[cid := comment]
      ensures posts == if form.id in old(posts)
                       then old(posts)[form.id := old(posts)[form.id].(comments := old(posts)[form.id].comments + [cid])]
                       else old(posts)
      ensures users == if form.userId in old(users)
                       then old(users)[form.userId := old(users)[form.userId].(
                              comments := old(users)[form.userId].comments + [CommentRef(form.id, cid)])]
                       else old(users)
      ensures old(Consistent()) ==> Consistent()
    {
      comment := Comment(form.contents, form.userId, form.userName, form.id, now);
      cid := InsertComment(comment);
      PushCommentOnPost(form.id, cid);
      PushCommentOnUser(form.userId, CommentRef(form.id, cid));
      assert old(Consistent()) ==> Consistent() by {
        if old(Consistent()) {
          if form.id in old(posts) {
            var post := old(posts)[form.id].(comments := old(posts)[form.id].comments + [cid]);
            Integrity.PostRewriteKeepsLinked(old(posts), categories, form.id, post);
            Integrity.PostRewriteKeepsCounted(old(posts), form.id, post);
          }
          if form.userId in old(users) {
            Integrity.UserRewriteKeepsUnique(old(users), form.userId,
              old(users)[form.userId].(comments := old(users)[form.userId].comments + [CommentRef(form.id, cid)]));
          }
        }
      }
    }

    /** `Comment.create` of `comment` under a fresh id. */
    method InsertComment(comment: Comment) returns (cid: Id)
      requires Valid()
      modifies this`comments, this`nextId
      ensures Valid()
      ensures cid == old(nextId) && nextId == cid + 1 && cid !in old(comments)
      ensures comments == old(comments)[cid := comment]
    {
      cid := NewId();
      comments := comments[cid := comment];
    }

    /** `Post.findByIdAndUpdate(p, { $push: { comments: cid } })`. */
    method PushCommentOnPost(p: Id, cid: Id)
      requires Valid()
      modifies this`posts
      ensures Valid()
      ensures posts == if p in old(posts) then old(posts)[p := old(posts)[p].(comments := old(posts)[p].comments + [cid])] else old(posts)
    {
      if p in posts {
        posts := posts[p := posts[p].(comments := posts[p].comments + [cid])];
      }
    }

    /** `User.findByIdAndUpdate(u, { $push: { comments: entry } })`. */
    method PushCommentOnUser(u: Id, entry: CommentRef)
      requires Valid()
      modifies this`users
      ensures Valid()
      ensures users == if u in old(users) then old(users)[u := old(users)[u].(comments := old(users)[u].comments + [entry])] else old(users)
    {
      if u in users {
        users := users[u := users[u].(comments := users[u].comments + [entry])];
      }
    }

    /** `DELETE /api/post/:id` (routes/api/post.js:189-204): deletes the
        post and every comment on it, pulls the post from the ACTING user's
        posts and comment entries (not from its creator's), pulls it from the
        first category listing it and deletes that category when it is left
        empty. When no category lists the post the handler fails at that
        point, after the earlier deletes have taken effect. */
    method DeletePost(id: Id, actor: Id) returns (r: Result<()>)
      requires Valid()
      modifies this`posts, this`comments, this`users, this`categories
      ensures Valid()
      ensures posts == old(posts) - {id}
      ensures comments == map k | k in old(comments) && old(comments)[k].post != id :: old(comments)[k]
      ensures forall k :: k in comments ==> comments[k].post != id
      ensures users == if actor in old(users) then old(users)[actor := Unlinked(old(users)[actor], id)] else old(users)
      ensures actor in users ==> id !in users[actor].posts && forall e :: e in users[actor].comments ==> e.postId != id
      ensures categories == Integrity.Detached(old(categories), id)
      ensures r.Ok? <==> Integrity.FirstContaining(old(categories), id).Some?
      ensures r.Err? ==> r.error == NoCategoryHoldsPost
      ensures old(Consistent()) ==> (r.Err? <==> id !in old(posts))
      ensures old(Consistent()) ==> Consistent()
    {
      RemovePost(id);
      DeleteCommentsOn(id);
      PullFromUser(actor, id);
      r := DetachFromCategory(id);
      assert old(Consistent()) ==> (r.Err? <==> id !in old(posts)) && Consistent() by {
        if old(Consistent()) {
          var user := if actor in old(users) then Unlinked(old(users)[actor], id) else User("", "", "", "", [], []);
          Integrity.DeleteKeepsConsistent(old(users), old(posts), old(categories), id, actor, user);
        }
      }
    }

    /** `Post.deleteMany({ _id: id })`. */
    method RemovePost(id: Id)
      requires Valid()
      modifies this`posts
      ensures Valid()
      ensures posts == old(posts) - {id}
    {
      posts := posts - {id};
    }

    /** `Comment.deleteMany({ post: id })`. */
    method DeleteCommentsOn(id: Id)
      requires Valid()
      modifies this`comments
      ensures Valid()
      ensures comments == map k | k in old(comments) && old(comments)[k].post != id :: old(comments)[k]
      ensures comments.Keys <= old(comments).Keys
    {
      comments := map k | k in comments && comments[k].post != id :: comments[k];
    }

    /** `User.findByIdAndUpdate(actor, { $pull: { posts: id, comments: { post_id: id } } })`. */
    method PullFromUser(actor: Id, id: Id)
      requires Valid()
      modifies this`users
      ensures Valid()
      ensures users == if actor in old(users) then old(users)[actor := Unlinked(old(users)[actor], id)] else old(users)
    {
      if actor in users {
        users := users[actor := Unlinked(users[actor], id)];
      }
    }

    /** The last two steps of a delete (routes/api/post.js:198-202): pull
        `id` from the first category listing it and delete that category if
        it is left empty; fail when no category lists `id`. */
    method DetachFromCategory(id: Id) returns (r: Result<()>)
      requires Valid()
      modifies this`categories
      ensures Valid()
      ensures categories == Integrity.Detached(old(categories), id)
      ensures r.Ok? <==> Integrity.FirstContaining(old(categories), id).Some?
      ensures r.Err? ==> r.error == NoCategoryHoldsPost
    {
      var holding := set c | c in categories && id in categories[c].posts;
      assert forall d :: d in categories && id in categories[d].posts ==> d in holding;
      if holding == {} {
        Integrity.DetachedNone(categories, id);
        return Err(NoCategoryHoldsPost);
      }
      ghost var least := Least(holding);
      var c :| c in holding && forall d :: d in holding ==> c <= d;
      Integrity.DetachedAt(categories, id, c);
      categories := categories[c := categories[c].(posts := Pull(categories[c].posts, id))];
      if categories[c].posts == [] {
        categories := categories - {c};
      }
      r := Ok(());
    }

    /** `POST /api/post/:id/edit` (routes/api/post.js:207-231): rewrites the
        title, contents, preview, file URL and date of the post the body
        names (the URL's `urlId` is not used) and answers with its id; a
        missing post is an error and nothing is written. */
    method EditPost(urlId: Id, form: EditForm, now: Date) returns (r: Result<Id>)
      requires Valid()
      modifies this`posts
      ensures Valid()
      ensures form.id !in old(posts) ==> r == Err(PostNotFound) && posts == old(posts)
      ensures form.id in old(posts) ==>
        && r == Ok(form.id)
        && posts == old(posts)[form.id := old(posts)[form.id].(
             title := form.title, contents := form.contents, previewContents := form.previewContents,
             fileUrl := form.fileUrl, date := now)]
      ensures old(Consistent()) ==> Consistent()
    {
      if form.id !in posts {
        return Err(PostNotFound);
      }
      var post := posts[form.id].(
        title := form.title, contents := form.contents, previewContents := form.previewContents,
        fileUrl := form.fileUrl, date := now);
      posts := posts[form.id := post];
      r := Ok(form.id);
      if old(Consistent()) {
        Integrity.PostRewriteKeepsLinked(old(posts), categories, form.id, post);
        Integrity.PostRewriteKeepsCounted(old(posts), form.id, post);
      }
    }

    /** `POST /api/post/:id/likes` (routes/api/post.js:234-264): removes the
        user from the post's likes when listed and appends them otherwise,
        sets `likesCount` to the new number of likes and answers with the
        post; a missing post is an error and nothing is written. */
    method ToggleLike(postId: Id, userId: Id) returns (r: Result<Post>)
      requires Valid()
      modifies this`posts
      ensures Valid()
      ensures postId !in old(posts) ==> r == Err(PostNotFound) && posts == old(posts)
      ensures postId in old(posts) ==>
        var likes := Toggled(old(posts)[postId].likes, userId);
        var liked := old(posts)[postId].(likes := likes, likesCount := |likes|);
        posts == old(posts)[postId := liked] && r == Ok(liked)
      ensures old(Consistent()) ==> Consistent()
    {
      if postId !in posts {
        return Err(PostNotFound);
      }
      var post := posts[postId];
      var likes := post.likes;
      if userId in likes {
        likes := Pull(likes, userId);
      } else {
        likes := likes + [userId];
      }
      post := post.(likes := likes, likesCount := |likes|);
      posts := posts[postId := post];
      r := Ok(post);
      if old(Consistent()) {
        Integrity.PostRewriteKeepsLinked(old(posts), categories, postId, post);
        ToggleKeepsNoRepeats(old(posts)[postId].likes, userId);
        Integrity.PostRewriteKeepsCounted(old(posts), postId, post);
      }
    }

    /** `POST /api/user/signup` (routes/api/user.js:14-58): refuses a form
        without name, login id or password, refuses a login id already
        taken, and otherwise stores the user with the password replaced by
        `hash(password)` before saving, answering without the password. */
    method Signup(form: SignupForm, hash: string -> string) returns (r: Result<SignupView>)
      requires Valid()
      modifies this`users, this`nextId
      ensures Valid()
      ensures !HasRequiredFields(form) ==>
        r == Err(MissingFields) && users == old(users) && nextId == old(nextId)
      ensures HasRequiredFields(form) && LoginTaken(old(users), form.userId) ==>
        r == Err(UserExists) && users == old(users) && nextId == old(nextId)
      ensures HasRequiredFields(form) && !LoginTaken(old(users), form.userId) ==>
        var id := old(nextId);
        var u := User(form.name, form.userId, hash(form.password), form.nickname, [], []);
        && id !in old(users) && nextId == id + 1
        && users == old(users)[id := u]
        && r == Ok(View(id, u))
      ensures Integrity.UserIdsUnique(old(users)) ==> Integrity.UserIdsUnique(users)
      ensures old(Consistent()) ==> Consistent()
    {
      if !HasRequiredFields(form) {
        return Err(MissingFields);
      }
      if LoginTaken(users, form.userId) {
        return Err(UserExists);
      }
      var id := NewId();
      var u := User(form.name, form.userId, form.password, form.nickname, [], []);
      u := u.(password := hash(u.password));
      users := users[id := u];
      r := Ok(View(id, u));
      if Integrity.UserIdsUnique(old(users)) {
        Integrity.SignupKeepsUnique(old(users), id, u);
      }
    }

    /** `GET /api/visitor/visit` (routes/api/visitor.js:7-17): counts one
        more visit and answers with the updated visitor document; without a
        visitor document it is an error and nothing is written. */
    method Visit() returns (r: Result<Visitor>)
      modifies this`visitor
      ensures old(visitor).None? ==> r == Err(VisitorMissing) && visitor == old(visitor)
      ensures old(visitor).Some? ==>
        && visitor == Some(old(visitor).value.(views := old(visitor).value.views + 1))
        && r == Ok(visitor.value)
    {
      if visitor.None? {
        return Err(VisitorMissing);
      }
      var visit := visitor.value;
      visit := visit.(views := visit.views + 1);
      visitor := Some(visit);
      r := Ok(visit);
    }
  }
}
