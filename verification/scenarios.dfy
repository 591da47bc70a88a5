/** Clients of the handlers, on a given store or on fresh ones: the
    document counts the tests expect, signing up twice, a whole session
    from signup to a second logout, what a password with a colon does, and
    the two jobs run after signup and upload. */
module Scenarios {
  import opened Common
  import Text
  import opened Db
  import opened Http
  import opened Cache
  import opened Users
  import opened Auth
  import opened Worker

  /** Cleared collections count 0, whatever they held before; after two
      inserts each counts 2. */
  method CountDocuments(db: DBClient) returns (usersBefore: StoreResult<nat>, usersAfter: StoreResult<nat>,
                                               filesBefore: StoreResult<nat>, filesAfter: StoreResult<nat>)
    requires db.Valid() && db.reachable
    modifies db
    ensures usersBefore == Done(0) && usersAfter == Done(2)
    ensures filesBefore == Done(0) && filesAfter == Done(2)
  {
    var _ := db.DeleteAllUsers();
    var _ := db.DeleteAllFiles();
    usersBefore := db.NbUsers();
    var _ := db.CreateUser("Larry", "");
    var _ := db.CreateUser("Karla", "");
    usersAfter := db.NbUsers();
    filesBefore := db.NbFiles();
    var _ := db.InsertFile(0, "FileOne", "");
    var _ := db.InsertFile(0, "FileTwo", "");
    filesAfter := db.NbFiles();
  }

  /** After `createUser(e, p)` on a store that answers, `userExist(e)` is true. */
  method CreateThenExists(db: DBClient, email: string, password: string) returns (r: StoreResult<bool>)
    requires db.Valid() && db.reachable
    modifies db
    ensures r == Done(true)
  {
    var _ := db.CreateUser(email, password);
    assert db.users[|db.users| - 1].email == email;
    r := db.UserExist(email);
  }

  /** The first signup is 201 with exactly the id and the email; the same
      request again is 400 `Already exist` and stores nothing more. */
  method SignupTwice(email: string, password: string, hash: string -> string)
    returns (first: Response, second: Response, stored: nat)
    requires email != "" && password != ""
    ensures first.status == 201 && first.body.UserBody? && first.body.email == email
    ensures second == AlreadyExist
    ensures stored == 1
  {
    var db := new DBClient();
    first := PostNew(db, Some(email), Some(password), hash);
    assert Registered(db.users, email) by {
      assert db.users[0].email == email;
    }
    second := PostNew(db, Some(email), Some(password), hash);
    stored := |db.users|;
  }

  /** Signup, then login with the same email and password through a Basic
      header: the token's key holds the new user's id for 24 hours and not
      a second longer; logout answers 204, and logging out again is 401. */
  method SessionLifecycle(email: string, password: string, b64: string,
                          decode: string -> string, hash: string -> string, token: string, now: int)
    returns (signup: Response, login: Outcome, resolved: StoreResult<Option<string>>,
             lastSecond: StoreResult<Option<string>>, expired: StoreResult<Option<string>>,
             logout: Response, again: Response)
    requires email != "" && password != ""
    requires ':' !in email && ':' !in password && ' ' !in b64
    requires decode(b64) == email + ":" + password
    ensures signup.status == 201 && signup.body.UserBody?
    ensures login == Replied(Response(200, TokenBody(token)))
    ensures resolved == Done(Some(signup.body.id))
    ensures lastSecond == Done(Some(signup.body.id))
    ensures expired == Done(None)
    ensures logout == Response(204, NoBody)
    ensures again == Unauthorized
  {
    var db := new DBClient();
    var cache := new RedisClient();
    signup := PostNew(db, Some(email), Some(password), hash);
    var header := "Basic " + b64;
    assert header == "Basic" + " " + b64 + "";
    assert decode(b64) == email + ":" + password + "";
    ParseBasicHeader("Basic", b64, "", decode, email, password, "");
    login := GetConnect(db, cache, Some(header), decode, hash, token, now);
    resolved := cache.Get(SessionKey(token), now);
    lastSecond := cache.Get(SessionKey(token), now + SessionTtl - 1);
    expired := cache.Get(SessionKey(token), now + SessionTtl);
    logout := GetDisconnect(cache, Some(token), now);
    again := GetDisconnect(cache, Some(token), now);
  }

  /** A password holding a colon is accepted at signup, but login drops
      everything from that colon on, so the hash it looks up is that of the
      shorter text: the same credentials are refused. */
  method ColonInPassword(email: string, head: string, tail: string, b64: string,
                         decode: string -> string, hash: string -> string, token: string, now: int)
    returns (signup: Response, login: Outcome)
    requires email != "" && head != ""
    requires ':' !in email && ':' !in head && ' ' !in b64
    requires decode(b64) == email + ":" + head + ":" + tail
    requires hash(head) != hash(head + ":" + tail)
    ensures signup.status == 201
    ensures login == Replied(Unauthorized)
  {
    var db := new DBClient();
    var cache := new RedisClient();
    var password := head + ":" + tail;
    signup := PostNew(db, Some(email), Some(password), hash);
    var header := "Basic " + b64;
    assert header == "Basic" + " " + b64 + "";
    assert decode(b64) == email + ":" + head + (":" + tail);
    ParseBasicHeader("Basic", b64, "", decode, email, head, ":" + tail);
    login := GetConnect(db, cache, Some(header), decode, hash, token, now);
  }

  /** The welcome job for the id a signup returned greets that email. */
  method WelcomeAfterSignup(email: string, password: string, hash: string -> string)
    returns (signup: Response, result: JobResult, message: Option<string>)
    requires email != "" && password != ""
    ensures signup.status == 201 && signup.body.UserBody?
    ensures result == Completed && message == Some("Welcome " + email + "!")
  {
    var db := new DBClient();
    signup := PostNew(db, Some(email), Some(password), hash);
    UserWithIdFindsEach(db.users, 0);
    result, message := ProcessWelcome(db, JobData(Some(signup.body.id), None));
  }

  /** A thumbnail job for a stored file, from its owner, with every resize
      succeeding, writes `_500`, `_250` and `_100` in that order; the same
      job from another user is `File not found` and writes nothing. */
  method ThumbnailsForUpload(owner: ObjectId, stranger: ObjectId, name: string, localPath: string,
                             resize: (string, nat) -> Option<Bytes>)
    returns (result: JobResult, written: seq<Write>, refused: JobResult, none: seq<Write>)
    requires owner != stranger
    requires forall w :: resize(localPath, w).Some?
    ensures result == Completed
    ensures |written| == 3
    ensures written[0].path == localPath + "_500"
    ensures written[1].path == localPath + "_250"
    ensures written[2].path == localPath + "_100"
    ensures refused == Failed(Thrown("File not found")) && none == []
  {
    var db := new DBClient();
    var id := db.InsertFile(owner, name, localPath);
    FileWithIdFindsEach(db.files, 0);
    result, written := ProcessThumbnail(db, JobData(Some(IdString(owner)), Some(IdString(id.value))), resize);
    CompletedRunWrites(localPath, resize, written);
    if IdString(stranger) == IdString(owner) {
      IdStringInjective(stranger, owner);
    }
    refused, none := ProcessThumbnail(db, JobData(Some(IdString(stranger)), Some(IdString(id.value))), resize);
  }
}
