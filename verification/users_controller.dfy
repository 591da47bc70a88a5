/** `POST /users`: signup. The body's `email` and `password` are checked in
    that order, then the email must not be registered yet; only then is a
    user stored, with the hash of the password. The hash function (SHA-1
    in the service) is a parameter. */
module Users {
  import opened Common
  import opened Db
  import opened Http

  const MissingEmail := Response(400, ErrorBody("Missing email"))
  const MissingPassword := Response(400, ErrorBody("Missing password"))
  const AlreadyExist := Response(400, ErrorBody("Already exist"))

  /** Whether some stored user already has this email. */
  predicate Registered(users: seq<User>, email: string)
  {
    exists i :: 0 <= i < |users| && users[i].email == email
  }

  /** Adding a user whose email nobody has keeps emails unique. */
  lemma AddUnregisteredKeepsUnique(users: seq<User>, user: User)
    requires UniqueEmails(users)
    requires !Registered(users, user.email)
    ensures UniqueEmails(users + [user])
  {
    var all := users + [user];
    forall i, j | 0 <= i < j < |all|
      ensures all[i].email != all[j].email
    {
      if j == |users| {
        assert all[i] == users[i];
      }
    }
  }

  /** `postNew`: the guard chain, then the guarded insert. Every rejection
      leaves the users collection as it was; success stores exactly one
      user holding the hash of the password and answers 201 with exactly
      the new id and the email. Emails stay unique across any sequence of
      calls that each run to completion before the next starts; the call
      is one atomic step here, while the service can interleave two
      requests between the existence check and the insert. */
  method PostNew(db: DBClient, email: Option<string>, password: Option<string>, hash: string -> string)
    returns (resp: Response)
    requires db.Valid()
    modifies db
    ensures db.Valid()
    ensures db.files == old(db.files) && db.reachable == old(db.reachable)
    ensures !Truthy(email) ==> resp == MissingEmail && db.users == old(db.users)
    ensures Truthy(email) && !Truthy(password) ==> resp == MissingPassword && db.users == old(db.users)
    ensures Truthy(email) && Truthy(password) && !db.reachable ==>
              resp == InternalServerError && db.users == old(db.users)
    ensures Truthy(email) && Truthy(password) && db.reachable && Registered(old(db.users), email.value) ==>
              resp == AlreadyExist && db.users == old(db.users)
    ensures Truthy(email) && Truthy(password) && db.reachable && !Registered(old(db.users), email.value) ==>
              && resp == Response(201, UserBody(IdString(old(db.nextId)), email.value))
              && db.users == old(db.users) + [User(old(db.nextId), email.value, hash(password.value))]
    ensures UniqueEmails(old(db.users)) ==> UniqueEmails(db.users)
  {
    if !Truthy(email) {
      return MissingEmail;
    }
    if !Truthy(password) {
      return MissingPassword;
    }
    var taken := db.UserExist(email.value);
    if taken.Unreachable? {
      return InternalServerError;
    }
    if taken.value {
      return AlreadyExist;
    }
    ghost var before := db.users;
    var hashedPassword := hash(password.value);
    var inserted := db.CreateUser(email.value, hashedPassword);
    if inserted.Unreachable? {
      return InternalServerError;
    }
    if UniqueEmails(before) {
      AddUnregisteredKeepsUnique(before, User(inserted.value, email.value, hashedPassword));
    }
    resp := Response(201, UserBody(IdString(inserted.value), email.value));
  }
}
