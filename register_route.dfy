/** The `POST /api/users/register` route as a decision on the `users` table,
    and the reply it sends on success. The insert is `EventStore.Register`. */
module RegisterRoute {
  import opened Wrappers
  import opened Text
  import opened Records
  import opened Tables

  /** The claims `generateToken({ id, username })` signs. */
  datatype Claims = Claims(id: UserId, username: string)

  /** The success reply: the new user's public fields and the token. */
  datatype Registered = Registered(id: UserId, username: string, email: string, token: Claims)

  predicate EmailTaken(users: seq<User>, email: string) {
    exists u :: u in users && u.email == email
  }

  predicate UsernameTaken(users: seq<User>, username: string) {
    exists u :: u in users && u.username == username
  }

  /** What the `users` schema keeps true: ids, usernames and emails are each
      unique, and every id is below the next `AUTOINCREMENT` value. */
  ghost predicate UsersConsistent(users: seq<User>, nextId: int) {
    (forall i, j :: 0 <= i < j < |users| ==>
       users[i].id != users[j].id && users[i].username != users[j].username && users[i].email != users[j].email)
    && (forall u :: u in users ==> u.id < nextId)
  }

  /** The checks in their order: the three fields, then the e-mail look-up;
      the `INSERT` then fails with `500` when the username is taken, since
      only its `UNIQUE` constraint guards it. */
  function RegisterReply(users: seq<User>, username: Option<string>, email: Option<string>, password: Option<string>): Reply {
    if !Truthy(username) || !Truthy(email) || !Truthy(password) then Reply(400, Some("Missing required fields"))
    else if EmailTaken(users, email.value) then Reply(400, Some("User already exists"))
    else if UsernameTaken(users, username.value) then Reply(500, Some("Server error"))
    else OK
  }

  /** A registration is accepted exactly when all three fields are given and
      both the e-mail address and the username are new; an existing e-mail
      address is reported as such. */
  lemma RegisterAccepted(users: seq<User>, username: Option<string>, email: Option<string>, password: Option<string>)
    ensures var r := RegisterReply(users, username, email, password);
      (r.status == 200 <==>
        Truthy(username) && Truthy(email) && Truthy(password)
        && (forall u :: u in users ==> u.email != email.value && u.username != username.value))
      && (!Truthy(username) || !Truthy(email) || !Truthy(password) ==> r == Reply(400, Some("Missing required fields")))
      && (Truthy(username) && Truthy(email) && Truthy(password) && EmailTaken(users, email.value)
          ==> r == Reply(400, Some("User already exists")))
  {
  }

  /** The row a successful registration inserts: the next id, and the hash of
      the password in place of the password. */
  function NewUser(nextId: int, username: string, email: string, password: string, hash: string -> string): User {
    User(nextId, username, email, hash(password))
  }

  /** The reply built from the new row carries its id, username and e-mail
      address and a token for that id and username; it has no password. */
  function RegisteredReply(u: User): (r: Registered)
    ensures r.id == u.id && r.username == u.username && r.email == u.email
    ensures r.token == Claims(u.id, u.username)
  {
    Registered(u.id, u.username, u.email, Claims(u.id, u.username))
  }

  /** An accepted insert keeps the `users` table consistent. */
  lemma RegisterKeepsConsistent(users: seq<User>, nextId: int, username: Option<string>, email: Option<string>,
                                password: Option<string>, hash: string -> string)
    requires UsersConsistent(users, nextId)
    requires RegisterReply(users, username, email, password).status == 200
    ensures Truthy(username) && Truthy(email) && Truthy(password)
    ensures UsersConsistent(users + [NewUser(nextId, username.value, email.value, password.value, hash)], nextId + 1)
  {
    var n := NewUser(nextId, username.value, email.value, password.value, hash);
    var after := users + [n];
    forall i, j | 0 <= i < j < |after|
      ensures after[i].id != after[j].id && after[i].username != after[j].username && after[i].email != after[j].email
    {
      if j == |users| {
        assert after[i] in users;
      }
    }
  }
}
