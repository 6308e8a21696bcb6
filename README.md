# Blog backend: posts, categories, comments, signup and visits

This project models the request handlers of a small blog backend as Dafny
code over an in-memory document store. The store is one `Store` class. It
holds the user, post, category and comment collections as maps from ids to
documents. It also holds the optional singleton visitor document and the
next id to hand out.

Each handler is a method that updates the store one call at a time, in the
handler's own order. Each document-store call (`create`, `findByIdAndUpdate`
with `$push` or `$pull`, `deleteMany`, `findOneAndUpdate`) is a small step
method, and calling it on an id that does not exist changes nothing. The
parts that only compute are functions:

- the post list, a filter by category plus a sort newest first;
- the like toggle's new list;
- the signup field check and the shape of the signup answer.

The store's integrity is stated on the collections as values (module
`Integrity`):

- every post is filed under exactly one category, which exists and lists
  it;
- every post a category lists exists and names that category back;
- no category is empty;
- category names are unique, and login ids are unique;
- every post's like count is the number of its likes, and no user is in
  a post's likes twice.

Every handler that writes users, posts or categories keeps these facts
(`old(Consistent()) ==> Consistent()`).
The scenario methods in `Scenarios` run handlers one after another on
one store.

Files, in dependency order:

- `entities.dfy`: documents, request forms and outcomes.
- `updates.dfy`: `$pull`, `$pull` by condition, and the first match a
  `findOne` picks.
- `integrity.dfy`: the reference graph, uniqueness, and what a delete does
  to the categories.
- `post_queries.dfy`: the post list and the like toggle.
- `accounts.dfy`: the signup checks and answer.
- `store.dfy`: the `Store` class and its handlers.
- `scenarios.dfy`: handlers run in sequence.

Modelling decisions:

- Ids come from one increasing counter, so "first in insertion order"
  (what `findOne` and `findOneAndUpdate` pick) is the least id.
- Dates are naturals. The stored `YYYY-MM-DD HH:mm` text sorts in time
  order, so the text order is the number order.
- A missing request field is the empty string, which is falsy, as
  `undefined` is.
- The authenticated user id (`req.user.id`) is a trusted `actor`
  parameter. The timestamp is a `now` parameter. The password hash is a
  `hash` function parameter.
- Delete pulls the post from the acting user's lists, not from its
  creator's (routes/api/post.js:192).
- A post's `category` is an array. The new-category branch pushes onto it
  and the existing-category branch overwrites it with one id
  (routes/api/post.js:103,118). Both leave exactly one id.

## Model

| member | source | states |
|---|---|---|
| Updates.Pull | routes/api/post.js:193-195 | `$pull` of a value keeps exactly the elements different from it; pulling an absent value changes nothing |
| Updates.PullCount | routes/api/post.js:198 | a pull removes every occurrence of the value and keeps every other element as often as it occurred |
| Updates.PullAppend | routes/api/post.js:251 | pulling from a concatenation pulls from each part |
| Updates.PullRefs | routes/api/post.js:195 | `$pull` by condition keeps exactly the comment entries for other posts, and never makes the list longer |
| Updates.Least | routes/api/post.js:198 | among the documents that match there is a first one, the least id |
| Updates.First | routes/api/post.js:94-96 | `findOne` returns nothing exactly when nothing matches, and otherwise the first match |
| Integrity.CategoryNamed | routes/api/post.js:94-96 | the category with the requested name is found exactly when one exists, and it is the first with that name |
| Integrity.FirstContaining | routes/api/post.js:198 | the category a delete selects exists exactly when some category lists the post, lists it, and is the first that does |
| Integrity.Detached | routes/api/post.js:198-202 | a delete only removes categories and never renames one |
| Integrity.DetachedAt | routes/api/post.js:198-202 | when `c` is the first category listing the post, the delete pulls the post from `c` and deletes `c` if nothing is left in it |
| Integrity.DetachedNone | routes/api/post.js:198-200 | when no category lists the post, the delete selects none and leaves the categories alone |
| Integrity.DeleteDetachesOwnCategory | routes/api/post.js:198-202 | in a linked store the delete selects the post's own category; that category stays exactly when it lists another post, and then without the deleted one; every other category is left alone, and no category lists the deleted post afterwards |
| Integrity.DeleteKeepsLinked | routes/api/post.js:189-202 | deleting a post and detaching it from its category keeps posts and categories linked |
| Integrity.DetachOwnKeepsLinked | routes/api/post.js:198-202 | removing the post and pulling it from its own category, deleting the category when it is left empty, keeps the graph linked |
| Integrity.DeleteKeepsConsistent | routes/api/post.js:189-202 | a whole delete keeps the store consistent, and in a consistent store it fails exactly when the post does not exist |
| Integrity.DetachKeepsNamesUnique | routes/api/post.js:198-202 | a delete keeps category names unique |
| Integrity.AttachKeepsLinked | routes/api/post.js:98-124 | filing a new post under an existing category (appended last) or under a new category holding just it keeps the graph linked |
| Integrity.AttachKeepsNamesUnique | routes/api/post.js:94-101 | reusing the category with the name, or creating one only when no category has it, keeps names unique |
| Integrity.PostRewriteKeepsLinked | routes/api/post.js:133-264 | a post update that leaves its category alone keeps the graph linked |
| Integrity.UserRewriteKeepsUnique | routes/api/post.js:108-197 | a user update that leaves the login id alone keeps login ids unique |
| Integrity.SignupKeepsUnique | routes/api/user.js:23-41 | adding a user under a new key with an unused login id keeps login ids unique |
| Integrity.PostRewriteKeepsCounted | routes/api/post.js:256-258 | storing a post whose like count is the number of its distinct likes keeps that true of every post |
| PostQueries.ToggleKeepsNoRepeats | routes/api/post.js:247-255 | a toggle never lists a user twice when nobody was listed twice before |
| PostQueries.Selected | routes/api/post.js:61-63 | a post is selected by `all`, or by a category id it is filed under |
| Accounts.HasRequiredFields | routes/api/user.js:19 | name, login id and password are all present; a missing field is the empty string, so truthiness is `!= ""` |
| Accounts.LoginTaken | routes/api/user.js:23-25 | some stored user already has the login id |
| Blog.NewPost | routes/api/post.js:85-92 | the stored post has the acting user as creator and the request's date, no category, comments or views yet, and its like count matches its likes |
| Blog.Unlinked | routes/api/post.js:192-197 | the user's posts and comment entries no longer mention the post, every other post and entry stays, and the user's own fields are unchanged |
| PostQueries.Toggled | routes/api/post.js:247-255 | a listed user is removed with every occurrence and nobody else changes; an unlisted user is appended once |
| PostQueries.ToggleTwiceRestores | routes/api/post.js:247-257 | two toggles by the same user give back the likes as a bag and in number when that user was listed at most once, and the very same list when the user was not listed |
| PostQueries.NewestExists | routes/api/post.js:61-63 | a non-empty set of posts has a newest one |
| PostQueries.SortNewestFirst | routes/api/post.js:61-63 | the sort lists every selected post exactly once, newest first |
| PostQueries.ListPosts | routes/api/post.js:55-70 | an unknown category id is an error; otherwise the answer lists exactly the posts of that category (every post for `all`), each once, newest first, with their number, all categories and the visitor document |
| Accounts.View | routes/api/user.js:44-51 | the answer carries the user's id, name and login id, no password, and the nickname when given, the name otherwise |
| Blog.Store.CreatePost | routes/api/post.js:81-130 | the post is stored under a fresh id with the acting user as creator, whatever the form's creator says; with a category of that name it is appended last to that category and no category is created; otherwise exactly one category with that name is created, holding just the post; the post names that category; the acting user's posts end with it; the store stays consistent |
| Blog.Store.InsertPost | routes/api/post.js:85-92 | `Post.create` stores the form's fields, the actor, the date and the defaults under a fresh id |
| Blog.Store.FindCategoryNamed | routes/api/post.js:94-96 | finds the first category with the name, or none |
| Blog.Store.InsertCategory | routes/api/post.js:99-101 | `Category.create` stores an empty category with the name under a fresh id |
| Blog.Store.PushCategoryOnPost | routes/api/post.js:102-104 | the category is appended to the post's categories, or nothing changes if the post is missing |
| Blog.Store.SetPostCategory | routes/api/post.js:117-119 | the post's categories become just the one category, or nothing changes if the post is missing |
| Blog.Store.PushPostOnCategory | routes/api/post.js:105-116 | the post is appended to the category's posts, or nothing changes if the category is missing |
| Blog.Store.PushPostOnUser | routes/api/post.js:108-124 | the post is appended to the user's posts, or nothing changes if the user is missing |
| Blog.Store.PostDetail | routes/api/post.js:133-143 | the views go up by exactly one and nothing else changes, and the answer is the updated post; a missing post is an error and nothing is written |
| Blog.Store.CommentList | routes/api/post.js:146-156 | the answer is the post's comment ids; a missing post is an error |
| Blog.Store.AddComment | routes/api/post.js:159-186 | one comment is stored for the post the body names; its id is appended to that post and an entry for it to the commenting user, and each append changes nothing when its target is missing |
| Blog.Store.InsertComment | routes/api/post.js:160-166 | `Comment.create` stores the comment under a fresh id |
| Blog.Store.PushCommentOnPost | routes/api/post.js:168-172 | the comment id is appended to the post's comments, or nothing changes if the post is missing |
| Blog.Store.PushCommentOnUser | routes/api/post.js:173-180 | the entry is appended to the user's comments, or nothing changes if the user is missing |
| Blog.Store.DeletePost | routes/api/post.js:189-204 | the post is gone; no comment on it is left; the acting user's posts and comment entries no longer mention it, and no other user changes; the first category listing it loses it and is deleted if left empty; with no such category it fails after the earlier steps took effect, which in a consistent store happens exactly for a missing post |
| Blog.Store.RemovePost | routes/api/post.js:190 | the post is removed and no other post changes |
| Blog.Store.DeleteCommentsOn | routes/api/post.js:191 | exactly the comments on the post are removed |
| Blog.Store.PullFromUser | routes/api/post.js:192-197 | the post and its comment entries are pulled from the acting user only |
| Blog.Store.DetachFromCategory | routes/api/post.js:198-202 | the first category listing the post loses it and is deleted when left empty; with no such category it is an error |
| Blog.Store.EditPost | routes/api/post.js:207-231 | only the title, contents, preview, file URL and date of the post the body names change; a missing post is an error and nothing is written |
| Blog.Store.ToggleLike | routes/api/post.js:234-264 | the likes become the toggled list and the like count its length, nothing else changes, and the answer is the updated post; a missing post is an error and nothing is written |
| Blog.Store.Signup | routes/api/user.js:14-58 | a form without name, login id or password is refused and nothing changes; a login id already taken is refused and nothing changes; otherwise exactly one user is added with the given fields and the hashed password, login ids stay unique, and the answer is the view of that user |
| Blog.Store.Visit | routes/api/visitor.js:7-17 | the views go up by exactly one and the answer is the updated document; without a visitor document it is an error and nothing is written |
| Scenarios.ViewRepeatedly | routes/api/post.js:136-137 | `n` detail requests for one post raise its views by exactly `n`, and nothing else changes |
| Scenarios.VisitRepeatedly | routes/api/visitor.js:10-11 | `n` visits take the views from `v0` to `v0 + n` |
| Scenarios.LikeTwice | routes/api/post.js:247-257 | in a consistent store, the same user toggling a like twice gives the post back its likes as a bag, the very same list when the user had not liked it, and its like count, and the store stays consistent |
| Scenarios.FileFirst | routes/api/post.js:98-112 | the first post filed under a name creates a category holding just that post |
| Scenarios.FileSecond | routes/api/post.js:113-124 | a second post filed under the same name is appended to that category |
| Scenarios.DeleteFirstOfTwo | routes/api/post.js:198-202 | deleting one of a category's two posts leaves the category with the other |
| Scenarios.DeleteLast | routes/api/post.js:198-202 | deleting a category's last post deletes the category |
| Scenarios.TechCategory | routes/api/post.js:81-204 | after creating two posts in "Tech" and deleting both, no category "Tech" exists and the store is consistent |

## Left out

- Image upload through S3 and multer (routes/api/post.js:13-47): it is storage I/O outside the application's logic.
- Express routing, HTTP status codes and redirects: outcomes are `Ok` or `Err` results, and a thrown exception or a response that is never sent is an `Err`.
- `populate` joins (routes/api/post.js:135,148): handlers answer with the raw documents.
- Login and the token check (routes/api/auth.js, middleware/auth.js): the authenticated user id is a trusted parameter.
- Signup's bcrypt salt and the JWT token (routes/api/user.js:37-53): the hash is an uninterpreted function parameter, and the token is dropped from the answer.
- `moment` formatting of dates: the date is a parameter.
- Concurrency: the read-modify-write races on `views` and `likes` and the un-awaited `save()` calls. Each handler is a sequence of atomic steps.
- Console logging.
- The application bootstrap in app.js: HTTPS redirect, CORS, helmet, morgan and the database connection.
- The list route's missing `:id` parameter: the model has only `all` and a category id as selectors, so a request without an id is not modelled.
- Schema details: the schema files (models/*.js) are not part of this model. The defaults (empty arrays, zero counts) are assumed, and the type casts of ids are left out. Like entries are user ids of the same id type as the documents' keys.
- Blog.Store.EditPost: a field missing from the form is written as the empty string. The document store would leave that field as it was instead.
- PostQueries.ToggleTwiceRestores: a listed user comes back at the end of the list, so it restores the likes as a bag, not in order.
- PostQueries.SortNewestFirst: posts with the same date come in an order the store does not promise. The model fixes one order by choice.
- Blog.Store.CommentList: the source answers with the populated comments and hangs on a missing post. The model answers with the ids and an error.
