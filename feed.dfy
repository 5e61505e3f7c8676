/** The feed client of both scanners: the shape of a feed response, the way one HTTP
    exchange is turned into a batch of items or an error, and the test the rotating
    fetcher uses to decide that an error means "this token is bad". */
module Feed {
  import opened Wrappers
  import opened Strings

  /** `post.attachments[i]`: the media dimensions and frame count, each possibly absent. */
  datatype Attachment = Attachment(width: Option<int>, height: Option<int>, nFrames: Option<int>)

  /** One upstream post; `text` and `postedAt` (seconds, possibly fractional) may be
      absent. */
  datatype Post = Post(id: string, attachments: seq<Attachment>, text: Option<string>, postedAt: Option<real>)

  datatype FeedItem = FeedItem(post: Post)

  /** The `items` member of a parsed body. */
  datatype ItemsField = Missing | NotAnArray | Items(items: seq<FeedItem>)

  /** A response body: text that `JSON.parse` rejects (with the parser's message), or a
      parsed object. `error` is `Some(s)` when the object has a truthy `error` member,
      `s` being its `JSON.stringify` text. */
  datatype Body = Unparseable(parserMessage: string) | Json(error: Option<string>, items: ItemsField)

  /** What one HTTPS GET produced: a response, a socket error, or the 30 s timeout. */
  datatype Exchange = Answered(status: int, body: Body) | SocketError(message: string) | TimedOut

  /** A rejected fetch: the `statusCode` property of the thrown error and its message. */
  datatype FetchError = FetchError(statusCode: Option<int>, message: string)

  type FeedResult = Result<seq<FeedItem>, FetchError>

  function TimeoutError(): FetchError { FetchError(None, "Request timeout") }

  /** Classification of one exchange in `fetchSoraFeedRaw` (src/scanner.js): 401 and 403
      are rejected with their status before the body is looked at; any other status,
      2xx or not, is judged by the body alone. */
  function Classify(x: Exchange): (r: FeedResult)
    ensures x.Answered? && (x.status == 401 || x.status == 403) ==>
              r == Err(FetchError(Some(x.status), if x.status == 401 then "HTTP 401" else "HTTP 403"))
    ensures r.Ok? <==> x.Answered? && x.status != 401 && x.status != 403
                       && x.body.Json? && x.body.error.None? && x.body.items.Items?
    ensures r.Ok? ==> r.value == x.body.items.items
  {
    match x
    case TimedOut => Err(TimeoutError())
    case SocketError(m) => Err(FetchError(None, m))
    case Answered(status, body) =>
      if status == 401 then Err(FetchError(Some(401), "HTTP 401"))
      else if status == 403 then Err(FetchError(Some(403), "HTTP 403"))
      else ClassifyBody(body, Some(if status == 0 then 500 else status))
  }

  /** The body checks shared by both scanners; `apiStatus` is the status code attached to
      an "API Error" (the simplified scanner attaches none). */
  function ClassifyBody(body: Body, apiStatus: Option<int>): (r: FeedResult)
    ensures r.Ok? <==> body.Json? && body.error.None? && body.items.Items?
  {
    match body
    case Unparseable(m) => Err(FetchError(None, "Parse error: " + m))
    case Json(error, items) =>
      if error.Some? then Err(FetchError(apiStatus, "API Error: " + error.value))
      else if !items.Items? then Err(FetchError(None, "Invalid API response"))
      else Ok(items.items)
  }

  /** Classification in `fetchSoraFeed` of src/scanner-simplified.js: no status check at
      all, and API errors carry no status code. */
  function ClassifySimplified(x: Exchange): (r: FeedResult)
    ensures r.Ok? <==> x.Answered? && x.body.Json? && x.body.error.None? && x.body.items.Items?
    ensures r.Err? ==> r.error.statusCode.None?
  {
    match x
    case TimedOut => Err(TimeoutError())
    case SocketError(m) => Err(FetchError(None, m))
    case Answered(_, body) => ClassifyBody(body, None)
  }

  /** Away from 401 and 403 the two clients accept the same bodies with the same items
      and reject the rest with the same message; only the status code may differ. */
  lemma ClassifiersAgreeOffAuthStatus(x: Exchange)
    requires !(x.Answered? && (x.status == 401 || x.status == 403))
    ensures Classify(x).Ok? <==> ClassifySimplified(x).Ok?
    ensures Classify(x).Ok? ==> Classify(x).value == ClassifySimplified(x).value
    ensures Classify(x).Err? ==> Classify(x).error.message == ClassifySimplified(x).error.message
  {
  }

  /** The alternative `invalid token` of `/invalid token|jwt/i` matches at `i`: each
      character, lower-cased, is the literal's. */
  predicate InvalidTokenAt(m: string, i: nat)
  {
    i + 13 <= |m|
    && LowerChar(m[i]) == 'i'
        && LowerChar(m[i + 1]) == 'n'
        && LowerChar(m[i + 2]) == 'v'
        && LowerChar(m[i + 3]) == 'a'
        && LowerChar(m[i + 4]) == 'l'
        && LowerChar(m[i + 5]) == 'i'
        && LowerChar(m[i + 6]) == 'd'
        && LowerChar(m[i + 7]) == ' '
        && LowerChar(m[i + 8]) == 't'
        && LowerChar(m[i + 9]) == 'o'
        && LowerChar(m[i + 10]) == 'k'
        && LowerChar(m[i + 11]) == 'e'
        && LowerChar(m[i + 12]) == 'n'
  }

  /** The alternative `jwt` matches at `i`. */
  predicate JwtAt(m: string, i: nat)
  {
    i + 3 <= |m| && LowerChar(m[i]) == 'j' && LowerChar(m[i + 1]) == 'w' && LowerChar(m[i + 2]) == 't'
  }

  /** The scan of `/invalid token|jwt/i.test(message)` from position `i` on. */
  predicate MentionsAuthFrom(message: string, i: nat)
    decreases |message| - i
  {
    i < |message| && (InvalidTokenAt(message, i) || JwtAt(message, i) || MentionsAuthFrom(message, i + 1))
  }

  /** `/invalid token|jwt/i.test(message)`. */
  predicate MentionsAuth(message: string)
  {
    MentionsAuthFrom(message, 0)
  }

  /** The scan finds a match exactly when one of the two alternatives matches at some
      position. */
  lemma {:induction false} MentionsAuthFromMatches(message: string, i: nat)
    ensures MentionsAuthFrom(message, i) <==>
            exists j: nat :: i <= j < |message| && (InvalidTokenAt(message, j) || JwtAt(message, j))
    decreases |message| - i
  {
    if i < |message| {
      MentionsAuthFromMatches(message, i + 1);
      if !(InvalidTokenAt(message, i) || JwtAt(message, i)) {
        forall j: nat | i <= j < |message| && (InvalidTokenAt(message, j) || JwtAt(message, j))
          ensures i + 1 <= j
        {
        }
      }
    }
  }

  /** With no alternative matching at or after `i`, the scan from `i` finds nothing. */
  lemma {:induction false} NoMentionFrom(message: string, i: nat)
    requires forall j: nat :: i <= j < |message| ==> !InvalidTokenAt(message, j) && !JwtAt(message, j)
    ensures !MentionsAuthFrom(message, i)
    decreases |message| - i
  {
    if i < |message| {
      NoMentionFrom(message, i + 1);
    }
  }

  /** The test matches exactly when one of the two alternatives matches somewhere. */
  lemma MentionsAuthMatches(message: string)
    ensures MentionsAuth(message) <==>
            exists j: nat :: j < |message| && (InvalidTokenAt(message, j) || JwtAt(message, j))
  {
    MentionsAuthFromMatches(message, 0);
  }

  /** The rotation test of `fetchSoraFeed` (src/scanner.js): status 401 or 403, or a
      message matching `/invalid token|jwt/i`. */
  predicate IsAuthFailure(e: FetchError)
  {
    e.statusCode == Some(401) || e.statusCode == Some(403) || MentionsAuth(e.message)
  }

  /** A socket timeout never leads to rotation: the fetcher stops on it. */
  lemma TimeoutIsNotAuthFailure()
    ensures !IsAuthFailure(TimeoutError())
  {
    var m := TimeoutError().message;
    assert !InvalidTokenAt(m, 0) && !InvalidTokenAt(m, 1) && !InvalidTokenAt(m, 2);
    assert forall i: nat :: i < |m| ==> LowerChar(m[i]) != 'j';
    NoMentionFrom(m, 0);
  }

  /** Any 401 or 403 answer, whatever its body, rotates to the next token. */
  lemma AuthStatusIsAuthFailure(status: int, body: Body)
    requires status == 401 || status == 403
    ensures Classify(Answered(status, body)).Err?
    ensures IsAuthFailure(Classify(Answered(status, body)).error)
  {
  }

  /** An API error envelope whose text mentions a JWT rotates even on a 200 answer: the
      test looks at the message, case-insensitively. */
  lemma JwtMentionRotates(status: int, envelope: string, j: nat)
    requires status != 401 && status != 403
    requires JwtAt(envelope, j)
    ensures Classify(Answered(status, Json(Some(envelope), Missing))).Err?
    ensures IsAuthFailure(Classify(Answered(status, Json(Some(envelope), Missing))).error)
  {
    var p := "API Error: ";
    var m := p + envelope;
    assert m[|p| + j] == envelope[j] && m[|p| + j + 1] == envelope[j + 1] && m[|p| + j + 2] == envelope[j + 2];
    assert |p| + j < |m| && JwtAt(m, |p| + j);
    MentionsAuthMatches(m);
    assert Classify(Answered(status, Json(Some(envelope), Missing))).error.message == m;
  }
}
