/** The two queue handlers. A thumbnail job re-checks its payload and the
    file's owner, then writes one resized copy of the file's content per
    width, in the order 500, 250, 100, each to `<localPath>_<width>`. A
    welcome job checks its payload and greets the user. Resizing is a
    parameter that may fail; each file write is an entry appended to the
    returned log. Neither handler changes a store (they have no `modifies`
    clause). */
module Worker {
  import opened Common
  import Text
  import opened Db

  /** The fields of `job.data` the handlers read. */
  datatype JobData = JobData(userId: Option<string>, fileId: Option<string>)

  /** Why a job failed: an `Error` the handler throws with its message, a
      store that could not be reached, or a resize that failed at a width. */
  datatype JobError = Thrown(message: string) | StoreUnreachable | ResizeFailed(width: nat)

  datatype JobResult = Completed | Failed(error: JobError)

  type Bytes = seq<bv8>

  /** One file written by the thumbnail handler. */
  datatype Write = Write(path: string, width: nat, data: Bytes)

  /** The thumbnail widths, in the order they are produced. */
  const Widths: seq<nat> := [500, 250, 100]

  /** `${localPath}_${width}`. */
  function ThumbnailPath(localPath: string, width: nat): string
  {
    localPath + "_" + Text.NatToString(width, 10)
  }

  /** The three output paths, spelled out. */
  lemma ThumbnailPathsSpelled(localPath: string)
    ensures ThumbnailPath(localPath, 500) == localPath + "_500"
    ensures ThumbnailPath(localPath, 250) == localPath + "_250"
    ensures ThumbnailPath(localPath, 100) == localPath + "_100"
  {
  }

  /** Different widths give different paths, so the outputs of one job never
      overwrite each other. */
  lemma ThumbnailPathsDistinct(localPath: string, a: nat, b: nat)
    requires a != b
    ensures ThumbnailPath(localPath, a) != ThumbnailPath(localPath, b)
  {
    var prefix := localPath + "_";
    if ThumbnailPath(localPath, a) == ThumbnailPath(localPath, b) {
      assert Text.NatToString(a, 10) == ThumbnailPath(localPath, a)[|prefix|..];
      assert Text.NatToString(b, 10) == ThumbnailPath(localPath, b)[|prefix|..];
      Text.NatToStringInjective(a, b, 10);
    }
  }

  /** The stored owner, printed, is the job's user id. */
  predicate OwnedBy(file: File, userId: string)
  {
    IdString(file.userId) == userId
  }

  /** The log holds, in order, one write per width of a prefix of `Widths`,
      each at that width's path and holding that width's resized content. */
  predicate WroteInOrder(localPath: string, resize: (string, nat) -> Option<Bytes>, written: seq<Write>)
  {
    && |written| <= |Widths|
    && forall k :: 0 <= k < |written| ==>
         && resize(localPath, Widths[k]).Some?
         && written[k] == Write(ThumbnailPath(localPath, Widths[k]), Widths[k], resize(localPath, Widths[k]).value)
  }

  /** No two writes of one job go to the same path. */
  lemma WrittenPathsDistinct(localPath: string, resize: (string, nat) -> Option<Bytes>, written: seq<Write>)
    requires WroteInOrder(localPath, resize, written)
    ensures forall j, k :: 0 <= j < k < |written| ==> written[j].path != written[k].path
  {
    forall j, k | 0 <= j < k < |written|
      ensures written[j].path != written[k].path
    {
      ThumbnailPathsDistinct(localPath, Widths[j], Widths[k]);
    }
  }

  /** A completed job wrote exactly three files: `_500`, `_250`, `_100`. */
  lemma CompletedRunWrites(localPath: string, resize: (string, nat) -> Option<Bytes>, written: seq<Write>)
    requires WroteInOrder(localPath, resize, written)
    requires |written| == |Widths|
    ensures |written| == 3
    ensures written[0].path == localPath + "_500" && written[0].width == 500
    ensures written[1].path == localPath + "_250" && written[1].width == 250
    ensures written[2].path == localPath + "_100" && written[2].width == 100
  {
    ThumbnailPathsSpelled(localPath);
  }

  /** The `fileQueue` handler. Missing `fileId` is reported before missing
      `userId`; an absent file or one owned by someone else is
      `File not found`; none of these writes anything. Otherwise the log is
      the writes for the widths in order: all three when every resize
      succeeds, else those before the first failing width. */
  method ProcessThumbnail(db: DBClient, data: JobData, resize: (string, nat) -> Option<Bytes>)
    returns (result: JobResult, written: seq<Write>)
    ensures !Truthy(data.fileId) ==> result == Failed(Thrown("Missing fileId")) && written == []
    ensures Truthy(data.fileId) && !Truthy(data.userId) ==> result == Failed(Thrown("Missing userId")) && written == []
    ensures Truthy(data.fileId) && Truthy(data.userId) && !db.reachable ==>
              result == Failed(StoreUnreachable) && written == []
    ensures Truthy(data.fileId) && Truthy(data.userId) && db.reachable ==>
              var file := FileWithId(db.files, data.fileId.value);
              if file.None? || !OwnedBy(file.value, data.userId.value) then
                result == Failed(Thrown("File not found")) && written == []
              else
                && WroteInOrder(file.value.localPath, resize, written)
                && (result == Completed <==> |written| == |Widths|)
                && (result != Completed ==>
                      && resize(file.value.localPath, Widths[|written|]).None?
                      && result == Failed(ResizeFailed(Widths[|written|])))
  {
    written := [];
    if !Truthy(data.fileId) {
      return Failed(Thrown("Missing fileId")), written;
    }
    if !Truthy(data.userId) {
      return Failed(Thrown("Missing userId")), written;
    }
    var found := db.FindFileById(data.fileId.value);
    if found.Unreachable? {
      return Failed(StoreUnreachable), written;
    }
    if found.value.None? || !OwnedBy(found.value.value, data.userId.value) {
      return Failed(Thrown("File not found")), written;
    }
    var file := found.value.value;
    var widths := Widths;
    for i := 0 to |widths|
      invariant |written| == i
      invariant WroteInOrder(file.localPath, resize, written)
    {
      var thumbnail := resize(file.localPath, widths[i]);
      if thumbnail.None? {
        return Failed(ResizeFailed(widths[i])), written;
      }
      written := written + [Write(ThumbnailPath(file.localPath, widths[i]), widths[i], thumbnail.value)];
    }
    result := Completed;
  }

  /** The `userQueue` handler: `Missing userId`, then `User not found`, else
      the greeting naming the user's email. */
  method ProcessWelcome(db: DBClient, data: JobData) returns (result: JobResult, message: Option<string>)
    ensures !Truthy(data.userId) ==> result == Failed(Thrown("Missing userId")) && message == None
    ensures Truthy(data.userId) && !db.reachable ==> result == Failed(StoreUnreachable) && message == None
    ensures Truthy(data.userId) && db.reachable ==>
              match UserWithId(db.users, data.userId.value)
              case None => result == Failed(Thrown("User not found")) && message == None
              case Some(user) => result == Completed && message == Some("Welcome " + user.email + "!")
  {
    if !Truthy(data.userId) {
      return Failed(Thrown("Missing userId")), None;
    }
    var found := db.FindUserById(data.userId.value);
    if found.Unreachable? {
      return Failed(StoreUnreachable), None;
    }
    if found.value.None? {
      return Failed(Thrown("User not found")), None;
    }
    result, message := Completed, Some("Welcome " + found.value.value.email + "!");
  }
}
