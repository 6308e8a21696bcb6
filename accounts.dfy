/** The pure parts of `POST /api/user/signup`: the required-field check, the
    duplicate test and the shape of the answer. */
module Accounts {
  import opened Entities

  /** `name`, `userId` and `password` are all present (truthy). */
  predicate HasRequiredFields(form: SignupForm) {
    form.name != "" && form.userId != "" && form.password != ""
  }

  /** `User.findOne({ userId })` finds someone. */
  predicate LoginTaken(users: map<Id, User>, userId: string) {
    exists k :: k in users && users[k].userId == userId
  }

  /** The `user` part of the signup answer. It has no password field, so
      neither the password nor its hash is ever sent back. */
  datatype SignupView = SignupView(id: Id, name: string, userId: string, nickname: string)

  /** The answer for the stored user `u` under key `id`; the nickname shown
      is the user's own when they gave one and their name otherwise. */
  function View(id: Id, u: User): (v: SignupView)
    ensures v.id == id && v.name == u.name && v.userId == u.userId
    ensures u.nickname != "" ==> v.nickname == u.nickname
    ensures u.nickname == "" ==> v.nickname == u.name
  {
    SignupView(id, u.name, u.userId, if u.nickname != "" then u.nickname else u.name)
  }
}
