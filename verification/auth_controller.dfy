/** `GET /connect` and `GET /disconnect`: session tokens kept in the cache
    under `auth_<token>` for 24 hours. Base64 decoding, SHA-1 and the uuid
    generator are parameters (`decode`, `hash`, and the fresh `token`), as
    is the clock (`now`, in seconds). */
module Auth {
  import opened Common
  import Text
  import opened Db
  import opened Http
  import opened Cache

  /** Lifetime of a session, in seconds. */
  const SessionTtl := 86400

  /** The cache key of a session token. */
  function SessionKey(token: string): string
  {
    "auth_" + token
  }

  /** The value of the `X-Token` header as a template literal prints it:
      an absent header becomes the text `undefined`. */
  function TokenText(token: Option<string>): string
  {
    if token.Some? then token.value else "undefined"
  }

  /** The decoded credential pair: the email is always there; the password
      is absent when the decoded text holds no colon. */
  datatype Credentials = Credentials(email: string, password: Option<string>)

  /** The throws that happen before the handler's `try`, so no response is
      sent for them: decoding an absent second header word, and hashing an
      absent password (the SHA-1 library rejects `undefined`). */
  datatype Fault = DecodeOfUndefined | HashOfUndefined

  /** What a handler does with a request: answer it, or throw. */
  datatype Outcome = Replied(response: Response) | Threw(fault: Fault)

  /** The `Authorization` header text, `''` when it is absent. */
  function HeaderText(header: Option<string>): string
  {
    if header.Some? then header.value else ""
  }

  /** Header splitting and decoding: the second space-separated word is
      base64-decoded and split on `:`; the email is piece 0 and the password
      piece 1. Nothing (a throw) when there is no second word. */
  function ParseCredentials(header: Option<string>, decode: string -> string): (r: Option<Credentials>)
    ensures r.None? <==> ' ' !in HeaderText(header)
    ensures r.Some? ==> ':' !in r.value.email
    ensures r.Some? && r.value.password.Some? ==> ':' !in r.value.password.value
  {
    var words := Text.Split(HeaderText(header), ' ');
    Text.SplitSingle(HeaderText(header), ' ');
    if |words| < 2 then None
    else
      var pieces := Text.Split(decode(words[1]), ':');
      Some(Credentials(pieces[0], if |pieces| >= 2 then Some(pieces[1]) else None))
  }

  /** The second word of `<scheme> <word>[ ...]` is `word`. */
  lemma SecondWord(scheme: string, word: string, tail: string)
    requires ' ' !in scheme && ' ' !in word
    requires tail == "" || tail[0] == ' '
    ensures |Text.Split(scheme + " " + word + tail, ' ')| >= 2
    ensures Text.Split(scheme + " " + word + tail, ' ')[1] == word
  {
    var after := word + tail;
    assert scheme + " " + word + tail == scheme + [' '] + after;
    Text.SplitAfterFirst(scheme, ' ', after);
    RestStartsWith(word, tail, ' ');
  }

  /** Splitting `word[<sep>...]` gives `word` first. */
  lemma RestStartsWith(word: string, tail: string, sep: char)
    requires sep !in word
    requires tail == "" || tail[0] == sep
    ensures Text.Split(word + tail, sep)[0] == word
  {
    if tail == "" {
      assert word + tail == word;
      Text.SplitSingle(word, sep);
    } else {
      assert word + tail == word + [sep] + tail[1..];
      Text.SplitAfterFirst(word, sep, tail[1..]);
    }
  }

  /** The first two colon-separated pieces of `email:password[:...]`. */
  lemma FirstTwoPieces(email: string, password: string, rest: string)
    requires ':' !in email && ':' !in password
    requires rest == "" || rest[0] == ':'
    ensures |Text.Split(email + ":" + password + rest, ':')| >= 2
    ensures Text.Split(email + ":" + password + rest, ':')[0] == email
    ensures Text.Split(email + ":" + password + rest, ':')[1] == password
  {
    var after := password + rest;
    assert email + ":" + password + rest == email + [':'] + after;
    Text.SplitAfterFirst(email, ':', after);
    RestStartsWith(password, rest, ':');
  }

  /** A header `<scheme> <b64>[ ...]` whose second word decodes to
      `email:password[:...]` yields exactly that email and password: text
      after a second colon is dropped. */
  lemma ParseBasicHeader(scheme: string, b64: string, tail: string, decode: string -> string,
                         email: string, password: string, rest: string)
    requires ' ' !in scheme && ' ' !in b64
    requires tail == "" || tail[0] == ' '
    requires ':' !in email && ':' !in password
    requires rest == "" || rest[0] == ':'
    requires decode(b64) == email + ":" + password + rest
    ensures ParseCredentials(Some(scheme + " " + b64 + tail), decode) == Some(Credentials(email, Some(password)))
  {
    SecondWord(scheme, b64, tail);
    FirstTwoPieces(email, password, rest);
  }

  /** A decoded text without a colon leaves the password absent. */
  lemma ParseWithoutColon(header: Option<string>, decode: string -> string)
    requires |Text.Split(HeaderText(header), ' ')| >= 2
    requires ':' !in decode(Text.Split(HeaderText(header), ' ')[1])
    ensures ParseCredentials(header, decode).Some?
    ensures ParseCredentials(header, decode).value.password.None?
  {
    Text.SplitSingle(HeaderText(header), ' ');
    Text.SplitSingle(decode(Text.Split(HeaderText(header), ' ')[1]), ':');
  }

  /** `getConnect`. Faults before the `try` throw and change nothing; an
      unknown email or wrong password is 401 and adds no session; success
      stores `auth_<token>` for the user's id string with a 24-hour lifetime,
      answers 200 with the token and leaves every other key as it was; a
      store failure inside the `try` is 500. */
  method GetConnect(db: DBClient, cache: RedisClient, header: Option<string>,
                    decode: string -> string, hash: string -> string, token: string, now: int)
    returns (out: Outcome)
    modifies cache
    ensures cache.reachable == old(cache.reachable)
    ensures ParseCredentials(header, decode).None? ==>
              out == Threw(DecodeOfUndefined) && cache.entries == old(cache.entries)
    ensures ParseCredentials(header, decode).Some? && ParseCredentials(header, decode).value.password.None? ==>
              out == Threw(HashOfUndefined) && cache.entries == old(cache.entries)
    ensures ParseCredentials(header, decode).Some? && ParseCredentials(header, decode).value.password.Some? ==>
              var creds := ParseCredentials(header, decode).value;
              var found := UserWithCredentials(db.users, creds.email, hash(creds.password.value));
              if !db.reachable then
                out == Replied(InternalServerError) && cache.entries == old(cache.entries)
              else if found.None? then
                out == Replied(Unauthorized) && cache.entries == old(cache.entries)
              else if !cache.reachable then
                out == Replied(InternalServerError) && cache.entries == old(cache.entries)
              else
                && out == Replied(Response(200, TokenBody(token)))
                && cache.entries == old(cache.entries)[SessionKey(token) := Entry(IdString(found.value.id), now + SessionTtl)]
  {
    var creds := ParseCredentials(header, decode);
    if creds.None? {
      return Threw(DecodeOfUndefined);
    }
    if creds.value.password.None? {
      return Threw(HashOfUndefined);
    }
    var hashedPassword := hash(creds.value.password.value);
    var existingUser := db.FindUserByEmailAndPassword(creds.value.email, hashedPassword);
    if existingUser.Unreachable? {
      return Replied(InternalServerError);
    }
    if existingUser.value.None? {
      return Replied(Unauthorized);
    }
    var stored := cache.Set(SessionKey(token), IdString(existingUser.value.value.id), SessionTtl, now);
    if stored.Unreachable? {
      return Replied(InternalServerError);
    }
    out := Replied(Response(200, TokenBody(token)));
  }

  /** `getDisconnect`. A token without a live session is 401 and changes
      nothing; a live one has exactly its key deleted and is answered 204; a
      store failure is 500. The key is built from the header even when it is
      absent. */
  method GetDisconnect(cache: RedisClient, token: Option<string>, now: int) returns (resp: Response)
    modifies cache
    ensures cache.reachable == old(cache.reachable)
    ensures !cache.reachable ==> resp == InternalServerError && cache.entries == old(cache.entries)
    ensures cache.reachable && !Truthy(Lookup(old(cache.entries), SessionKey(TokenText(token)), now)) ==>
              resp == Unauthorized && cache.entries == old(cache.entries)
    ensures cache.reachable && Truthy(Lookup(old(cache.entries), SessionKey(TokenText(token)), now)) ==>
              resp == Response(204, NoBody) && cache.entries == old(cache.entries) - {SessionKey(TokenText(token))}
  {
    var key := SessionKey(TokenText(token));
    var userId := cache.Get(key, now);
    if userId.Unreachable? {
      return InternalServerError;
    }
    if !Truthy(userId.value) {
      return Unauthorized;
    }
    var deleted := cache.Del(key);
    if deleted.Unreachable? {
      return InternalServerError;
    }
    resp := Response(204, NoBody);
  }
}
