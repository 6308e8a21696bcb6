/** Records of the blog's document store (users, posts, categories,
    comments and the visitor counter), the request bodies the post, user and
    visitor routes read, and the outcomes those routes produce. */
module Entities {

  /** A document identity (a MongoDB ObjectId). One counter hands out the ids
      of every collection, so ids never collide across collections and a
      document created later has a larger id. */
  type Id = nat

  /** A timestamp as the routes write it ('YYYY-MM-DD HH:mm', UTC+9). That
      text sorts in the same order as the instants it names, so only the
      order is kept: minutes since an origin. */
  type Date = nat

  datatype Option<T> = None | Some(value: T)

  /** One entry of a user's `comments` list: `{post_id, comment_id}`. */
  datatype CommentRef = CommentRef(postId: Id, commentId: Id)

  /** A user document. `password` holds the stored hash. */
  datatype User = User(
    name: string,
    userId: string,
    password: string,
    nickname: string,
    posts: seq<Id>,
    comments: seq<CommentRef>)

  /** A post document. `category` is a list field that holds the one
      category the post was filed under. */
  datatype Post = Post(
    title: string,
    contents: string,
    previewContents: string,
    fileUrl: string,
    creator: Id,
    category: seq<Id>,
    comments: seq<Id>,
    views: nat,
    likes: seq<Id>,
    likesCount: nat,
    date: Date)

  datatype Category = Category(categoryName: string, posts: seq<Id>)

  datatype Comment = Comment(
    contents: string,
    creator: Id,
    creatorName: string,
    post: Id,
    date: Date)

  /** The singleton visit counter document. */
  datatype Visitor = Visitor(views: nat)

  /** Body of `POST /api/post`. `creator` is sent by the client but not used. */
  datatype PostForm = PostForm(
    title: string,
    contents: string,
    previewContents: string,
    fileUrl: string,
    creator: Id,
    category: string)

  /** Body of `POST /api/post/:id/comments`; `id` names the post. */
  datatype CommentForm = CommentForm(contents: string, userId: Id, userName: string, id: Id)

  /** Body of `POST /api/post/:id/edit`; `id` names the post. */
  datatype EditForm = EditForm(
    title: string,
    contents: string,
    previewContents: string,
    fileUrl: string,
    id: Id)

  /** Body of `POST /api/user/signup`. An absent field is the empty string. */
  datatype SignupForm = SignupForm(name: string, userId: string, password: string, nickname: string)

  /** Argument of `GET /api/post/list/:id/view`: the word `all` or a category id. */
  datatype Selector = AllPosts | InCategory(id: Id)

  /** Why a handler did not complete normally. */
  datatype Error =
    | PostNotFound          // a post lookup returned null and the handler dereferenced it
    | CategoryNotFound      // the list handler's category lookup returned null
    | NoCategoryHoldsPost   // delete found no category listing the post
    | MissingFields         // signup without name, userId or password
    | UserExists            // signup with a userId already taken
    | VisitorMissing        // no visitor document exists

  datatype Result<T> = Ok(value: T) | Err(error: Error)
}
