/** The document-store client: a `users` collection and a `files`
    collection, the queries the controllers and the worker run on them,
    and the insertion of a user at signup. */
module Db {
  import opened Common
  import Text

  /** A document identity. The store hands out a fresh one per insertion;
      here it is drawn from a counter. */
  type ObjectId = nat

  /** A `users` document: the password field holds the hash the signup
      handler computed, not the plaintext. */
  datatype User = User(id: ObjectId, email: string, password: string)

  /** A `files` document, reduced to the fields the worker reads: the owner
      and the path of the stored content. */
  datatype File = File(id: ObjectId, userId: ObjectId, name: string, localPath: string)

  /** `id.toString()`: the lowercase hexadecimal form of an ObjectId. */
  function IdString(id: ObjectId): (s: string)
    ensures |s| >= 1
  {
    Text.NatToString(id, 16)
  }

  /** Two ids print the same only if they are the same id, so a string id
      taken from a session or a job names at most one document. */
  lemma IdStringInjective(a: ObjectId, b: ObjectId)
    requires IdString(a) == IdString(b)
    ensures a == b
  {
    Text.NatToStringInjective(a, b, 16);
  }

  /** `findOne(filter)`: the first document, in insertion order, that the
      filter accepts, or none when no document does. */
  function FindFirst<T>(docs: seq<T>, filter: T -> bool): (r: Option<T>)
    ensures r.None? <==> forall i :: 0 <= i < |docs| ==> !filter(docs[i])
    ensures r.Some? ==> exists i :: 0 <= i < |docs| && docs[i] == r.value && filter(docs[i])
                                   && forall j :: 0 <= j < i ==> !filter(docs[j])
    decreases |docs|
  {
    if |docs| == 0 then None
    else if filter(docs[0]) then Some(docs[0])
    else
      var r := FindFirst(docs[1..], filter);
      assert forall j :: 1 <= j < |docs| ==> docs[j] == docs[1..][j - 1];
      r
  }

  /** `findOne({ email })` on the users collection (exact, case-sensitive). */
  function UserWithEmail(users: seq<User>, email: string): Option<User>
  {
    FindFirst(users, (u: User) => u.email == email)
  }

  /** The lookup by email and password hash that the login handler calls.
      The client it is called on does not define it; it is modelled as a
      `findOne({ email, password })` over the same users collection. */
  function UserWithCredentials(users: seq<User>, email: string, passwordHash: string): Option<User>
  {
    FindFirst(users, (u: User) => u.email == email && u.password == passwordHash)
  }

  /** The lookup of a user by its string id that the welcome job calls; not
      defined on the client either, modelled as a `findOne` on the id. A
      string that is not the form of any stored id finds nothing. */
  function UserWithId(users: seq<User>, id: string): Option<User>
  {
    FindFirst(users, (u: User) => IdString(u.id) == id)
  }

  /** The lookup of a file by its string id that the thumbnail job calls;
      modelled like `UserWithId`. */
  function FileWithId(files: seq<File>, id: string): Option<File>
  {
    FindFirst(files, (f: File) => IdString(f.id) == id)
  }

  predicate DistinctUserIds(users: seq<User>)
  {
    forall i, j :: 0 <= i < j < |users| ==> users[i].id != users[j].id
  }

  predicate DistinctFileIds(files: seq<File>)
  {
    forall i, j :: 0 <= i < j < |files| ==> files[i].id != files[j].id
  }

  /** No two user documents share an email: what the signup handler keeps. */
  predicate UniqueEmails(users: seq<User>)
  {
    forall i, j :: 0 <= i < j < |users| ==> users[i].email != users[j].email
  }

  /** With distinct ids, the string form of a stored user's id finds
      exactly that user. */
  lemma UserWithIdFindsEach(users: seq<User>, k: nat)
    requires DistinctUserIds(users)
    requires k < |users|
    ensures UserWithId(users, IdString(users[k].id)) == Some(users[k])
  {
    var r := UserWithId(users, IdString(users[k].id));
    assert r.Some?;
    var i :| 0 <= i < |users| && users[i] == r.value && IdString(users[i].id) == IdString(users[k].id);
    IdStringInjective(users[i].id, users[k].id);
  }

  /** With distinct ids, the string form of a stored file's id finds
      exactly that file. */
  lemma FileWithIdFindsEach(files: seq<File>, k: nat)
    requires DistinctFileIds(files)
    requires k < |files|
    ensures FileWithId(files, IdString(files[k].id)) == Some(files[k])
  {
    var r := FileWithId(files, IdString(files[k].id));
    assert r.Some?;
    var i :| 0 <= i < |files| && files[i] == r.value && IdString(files[i].id) == IdString(files[k].id);
    IdStringInjective(files[i].id, files[k].id);
  }

  /** With unique emails, the login lookup finds a user exactly when the
      email is registered and the stored hash matches, and then it is that
      registered user. */
  lemma UserWithCredentialsMatchesEmail(users: seq<User>, email: string, passwordHash: string)
    requires UniqueEmails(users)
    ensures UserWithCredentials(users, email, passwordHash)
         == (match UserWithEmail(users, email)
             case Some(u) => if u.password == passwordHash then Some(u) else None
             case None => None)
  {
    var byEmail := UserWithEmail(users, email);
    var both := UserWithCredentials(users, email, passwordHash);
    if byEmail.Some? {
      var i :| 0 <= i < |users| && users[i] == byEmail.value && users[i].email == email;
      if both.Some? {
        var j :| 0 <= j < |users| && users[j] == both.value && users[j].email == email && users[j].password == passwordHash;
        assert i == j;
      } else {
        assert !(users[i].email == email && users[i].password == passwordHash);
      }
    }
  }

  /** The client object: the two collections, the id counter standing in
      for ObjectId generation, and whether the server answers at all. */
  class DBClient {
    var users: seq<User>
    var files: seq<File>
    var nextId: ObjectId
    var reachable: bool

    /** Every stored id was handed out before `nextId`, and ids are unique
        within each collection. */
    ghost predicate Valid()
      reads this
    {
      && (forall i :: 0 <= i < |users| ==> users[i].id < nextId)
      && (forall i :: 0 <= i < |files| ==> files[i].id < nextId)
      && DistinctUserIds(users)
      && DistinctFileIds(files)
    }

    /** A connected client over empty collections. */
    constructor ()
      ensures Valid() && reachable
      ensures users == [] && files == []
    {
      users, files, nextId, reachable := [], [], 0, true;
    }

    /** `nbUsers()`: the number of user documents. */
    method NbUsers() returns (r: StoreResult<nat>)
      ensures reachable ==> r == Done(|users|)
      ensures !reachable ==> r == Unreachable
    {
      if !reachable { return Unreachable; }
      r := Done(|users|);
    }

    /** `nbFiles()`: the number of file documents. */
    method NbFiles() returns (r: StoreResult<nat>)
      ensures reachable ==> r == Done(|files|)
      ensures !reachable ==> r == Unreachable
    {
      if !reachable { return Unreachable; }
      r := Done(|files|);
    }

    /** `createUser(email, password)`: inserts exactly one document
        `{ email, password }` under a fresh id and returns that id; the
        files collection is untouched. */
    method CreateUser(email: string, password: string) returns (r: StoreResult<ObjectId>)
      requires Valid()
      modifies this
      ensures Valid()
      ensures files == old(files) && reachable == old(reachable)
      ensures reachable ==> (r == Done(old(nextId))
                             && users == old(users) + [User(old(nextId), email, password)])
      ensures !reachable ==> r == Unreachable && users == old(users)
      ensures forall i :: 0 <= i < |old(users)| ==> old(users)[i].id != old(nextId)
    {
      if !reachable { return Unreachable; }
      users := users + [User(nextId, email, password)];
      r := Done(nextId);
      nextId := nextId + 1;
    }

    /** `userExist(email)`: true exactly when some user document has that
        email. */
    method UserExist(email: string) returns (r: StoreResult<bool>)
      ensures !reachable ==> r == Unreachable
      ensures reachable ==> r.Done?
      ensures r.Done? ==> (r.value <==> exists i :: 0 <= i < |users| && users[i].email == email)
    {
      if !reachable { return Unreachable; }
      var user := UserWithEmail(users, email);
      r := Done(user != None);
    }

    /** The login lookup: the first user with this email and hash. */
    method FindUserByEmailAndPassword(email: string, passwordHash: string) returns (r: StoreResult<Option<User>>)
      ensures !reachable ==> r == Unreachable
      ensures reachable ==> r == Done(UserWithCredentials(users, email, passwordHash))
      ensures r.Done? && r.value.Some? ==>
                r.value.value in users && r.value.value.email == email && r.value.value.password == passwordHash
      ensures r.Done? && r.value.None? ==> forall i :: 0 <= i < |users| ==> !(users[i].email == email && users[i].password == passwordHash)
    {
      if !reachable { return Unreachable; }
      r := Done(UserWithCredentials(users, email, passwordHash));
    }

    /** The welcome job's lookup: the user whose id prints as `id`. */
    method FindUserById(id: string) returns (r: StoreResult<Option<User>>)
      ensures !reachable ==> r == Unreachable
      ensures reachable ==> r == Done(UserWithId(users, id))
      ensures r.Done? && r.value.Some? ==> r.value.value in users && IdString(r.value.value.id) == id
      ensures r.Done? && r.value.None? ==> forall i :: 0 <= i < |users| ==> IdString(users[i].id) != id
    {
      if !reachable { return Unreachable; }
      r := Done(UserWithId(users, id));
    }

    /** The thumbnail job's lookup: the file whose id prints as `id`. */
    method FindFileById(id: string) returns (r: StoreResult<Option<File>>)
      ensures !reachable ==> r == Unreachable
      ensures reachable ==> r == Done(FileWithId(files, id))
      ensures r.Done? && r.value.Some? ==> r.value.value in files && IdString(r.value.value.id) == id
      ensures r.Done? && r.value.None? ==> forall i :: 0 <= i < |files| ==> IdString(files[i].id) != id
    {
      if !reachable { return Unreachable; }
      r := Done(FileWithId(files, id));
    }

    /** `usersCollection.deleteMany({})`, as the tests use it to clear the
        collection. */
    method DeleteAllUsers() returns (r: StoreResult<()>)
      requires Valid()
      modifies this`users
      ensures Valid()
      ensures r.Done? == reachable
      ensures users == if reachable then [] else old(users)
    {
      if !reachable { return Unreachable; }
      users := [];
      r := Done(());
    }

    /** `filesCollection.deleteMany({})`. */
    method DeleteAllFiles() returns (r: StoreResult<()>)
      requires Valid()
      modifies this`files
      ensures Valid()
      ensures r.Done? == reachable
      ensures files == if reachable then [] else old(files)
    {
      if !reachable { return Unreachable; }
      files := [];
      r := Done(());
    }

    /** `filesCollection.insertOne(doc)`: stores one file document under a
        fresh id; the users collection is untouched. */
    method InsertFile(owner: ObjectId, name: string, localPath: string) returns (r: StoreResult<ObjectId>)
      requires Valid()
      modifies this`files, this`nextId
      ensures Valid()
      ensures reachable ==> (r == Done(old(nextId))
                             && files == old(files) + [File(old(nextId), owner, name, localPath)])
      ensures !reachable ==> r == Unreachable && files == old(files)
    {
      if !reachable { return Unreachable; }
      files := files + [File(nextId, owner, name, localPath)];
      r := Done(nextId);
      nextId := nextId + 1;
    }
  }
}
