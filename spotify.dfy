/**
 * The Spotify Web API client: the recently-played crawl with its
 * pagination, and the two token requests' error routing.
 *
 * HTTP is replaced by its results: the crawl reads the responses it gets,
 * one per request, from a sequence, and records the requests it makes.
 * A request that throws before any reply arrives (a `fetch` that rejects,
 * or `new URL` on a malformed `next` link) is a `Rejected` reply.
 * A JSON body without an `items` array contributes no items; a body that
 * is not JSON at all, or is JSON `null`, makes reading it throw.
 */
module Spotify {
  import opened Common
  import opened Tracks

  /** What the crawl asks for: the first page with a `limit`, or a `next` URL. */
  datatype Request = First(limit: int) | Next(url: string)

  /**
   * The body of an OK reply: a page of results, with `next` as `""` when it
   * is `null` or missing, or a body the crawl cannot read (`result.json()`
   * throws on text that is not JSON, and `data.items` throws on `null`).
   */
  datatype Page = Page(items: Option<seq<PlayItem>>, next: string) | Unreadable

  /** The reply to one request: a status and a body, or the error the request threw. */
  datatype Response = Response(status: int, page: Page) | Rejected(message: string)

  /**
   * The errors the crawl throws: `spotify_unauthorized`,
   * `spotify_recently_played_failed`, the error reading an unreadable
   * body raises, which carries no status, or the error a rejected request
   * threw, passed on as it is.
   */
  datatype FetchError = Unauthorized | RequestFailed(status: int) | BodyUnreadable | Thrown(message: string)

  /** `response.ok`: a status in the range 200 to 299. */
  predicate IsOk(status: int)
  {
    200 <= status <= 299
  }

  /** The first request's page size: Spotify serves at most 50 items per page. */
  function FirstPageSize(limit: int): (r: int)
    ensures r <= 50 && r <= limit && (r == 50 || r == limit)
  {
    if limit < 50 then limit else 50
  }

  /** The items a reply contributes: those of a readable page with an `items` array. */
  function ItemsOf(r: Response): seq<PlayItem>
  {
    if r.Response? && r.page.Page? && r.page.items.Some? then r.page.items.value else []
  }

  /** The `next` link of a readable page, `""` for any other reply. */
  function NextOf(r: Response): string
  {
    if r.Response? && r.page.Page? then r.page.next else ""
  }

  /** A reply the crawl reads on from: an OK status with a readable page. */
  predicate Readable(r: Response)
  {
    r.Response? && IsOk(r.status) && r.page.Page?
  }

  /**
   * `s.slice(0, end)`: a negative `end` counts from the end of `s`, and an
   * `end` past the end is cut to `|s|`.
   */
  function SliceTo<T>(s: seq<T>, end: int): (r: seq<T>)
    ensures |r| <= |s| && r == s[..|r|]
    ensures end >= 0 ==> |r| == if end < |s| then end else |s|
    ensures end < 0 ==> |r| == if |s| + end > 0 then |s| + end else 0
  {
    if end >= 0 then (if end < |s| then s[..end] else s)
    else if |s| + end > 0 then s[..|s| + end]
    else []
  }

  /**
   * The crawl, as a function of the responses still to come and the items
   * gathered so far: its outcome and the number of requests it makes, or
   * `None` when the responses run out before the crawl stops.
   */
  function Crawl(rs: seq<Response>, limit: int, acc: seq<PlayItem>): Option<(Result<seq<PlayItem>, FetchError>, nat)>
  {
    if rs == [] then None
    else if rs[0].Rejected? then Some((Failure(Thrown(rs[0].message)), 1))
    else if rs[0].status == 401 then Some((Failure(Unauthorized), 1))
    else if !IsOk(rs[0].status) then Some((Failure(RequestFailed(rs[0].status)), 1))
    else if rs[0].page.Unreadable? then Some((Failure(BodyUnreadable), 1))
    else
      var all := acc + ItemsOf(rs[0]);
      if |all| >= limit || rs[0].page.next == "" then Some((Success(SliceTo(all, limit)), 1))
      else
        var rest := Crawl(rs[1..], limit, all);
        if rest.None? then None else Some((rest.value.0, rest.value.1 + 1))
  }

  /** All items of the first `n` pages, in fetch order. */
  function Concat(rs: seq<Response>): seq<PlayItem>
  {
    if rs == [] then [] else ItemsOf(rs[0]) + Concat(rs[1..])
  }

  /** The requests the crawl makes: the first page, then each `next` it was given. */
  ghost predicate RequestsMade(requests: seq<Request>, rs: seq<Response>, limit: int)
  {
    && |requests| >= 1
    && requests[0] == First(FirstPageSize(limit))
    && |requests| - 1 <= |rs|
    && forall k :: 1 <= k < |requests| ==> requests[k] == Next(NextOf(rs[k - 1]))
  }

  /**
   * `fetchRecentlyPlayed(token, limit)`.  `responses` are the replies to
   * the crawl's requests in order; the crawl must end before they run out.
   * It returns the items or the error thrown, and the requests made.
   */
  method FetchRecentlyPlayed(responses: seq<Response>, limit: int)
      returns (outcome: Result<seq<PlayItem>, FetchError>, requests: seq<Request>)
    requires Crawl(responses, limit, []).Some?
    ensures outcome == Crawl(responses, limit, []).value.0
    ensures |requests| == Crawl(responses, limit, []).value.1
    ensures RequestsMade(requests, responses, limit)
  {
    var allItems: seq<PlayItem> := [];
    var nextUrl := "";
    var n := 0;
    var done := false;
    requests := [];
    outcome := Success([]);
    while !done
      invariant 0 <= n <= |responses| && |requests| == n
      invariant !done ==> Crawl(responses[n..], limit, allItems).Some?
      invariant !done ==> Crawl(responses[n..], limit, allItems).value.0 == Crawl(responses, limit, []).value.0
      invariant !done ==> Crawl(responses[n..], limit, allItems).value.1 + n == Crawl(responses, limit, []).value.1
      invariant done ==> outcome == Crawl(responses, limit, []).value.0 && n == Crawl(responses, limit, []).value.1
      invariant n > 0 && !done ==> nextUrl == NextOf(responses[n - 1])
      invariant n > 0 || !done
      invariant n > 0 ==> RequestsMade(requests, responses, limit)
      decreases |responses| - n
    {
      var url := if n == 0 then First(FirstPageSize(limit)) else Next(nextUrl);
      requests := requests + [url];
      var result := responses[n];
      CrawlStep(responses[n..], limit, allItems);
      assert responses[n..][1..] == responses[n + 1..];
      n := n + 1;
      if result.Rejected? {
        outcome := Failure(Thrown(result.message));
        done := true;
      } else if result.status == 401 {
        outcome := Failure(Unauthorized);
        done := true;
      } else if !IsOk(result.status) {
        outcome := Failure(RequestFailed(result.status));
        done := true;
      } else if result.page.Unreadable? {
        outcome := Failure(BodyUnreadable);
        done := true;
      } else {
        if result.page.items.Some? {
          allItems := allItems + result.page.items.value;
        }
        nextUrl := result.page.next;
        if |allItems| >= limit || nextUrl == "" {
          outcome := Success(SliceTo(allItems, limit));
          done := true;
        }
      }
    }
  }

  /** One request of the crawl: how its outcome follows from the first reply. */
  lemma CrawlStep(rs: seq<Response>, limit: int, acc: seq<PlayItem>)
    requires Crawl(rs, limit, acc).Some?
    ensures rs != []
    ensures rs[0].Rejected? ==> Crawl(rs, limit, acc).value == (Failure(Thrown(rs[0].message)), 1)
    ensures rs[0].Response? && rs[0].status == 401 ==> Crawl(rs, limit, acc).value == (Failure(Unauthorized), 1)
    ensures rs[0].Response? && rs[0].status != 401 && !IsOk(rs[0].status) ==>
      Crawl(rs, limit, acc).value == (Failure(RequestFailed(rs[0].status)), 1)
    ensures rs[0].Response? && IsOk(rs[0].status) && rs[0].page.Unreadable? ==>
      Crawl(rs, limit, acc).value == (Failure(BodyUnreadable), 1)
    ensures Readable(rs[0]) ==>
      var all := if rs[0].page.items.Some? then acc + rs[0].page.items.value else acc;
      if |all| >= limit || rs[0].page.next == "" then Crawl(rs, limit, acc).value == (Success(SliceTo(all, limit)), 1)
      else Crawl(rs[1..], limit, all).Some? && Crawl(rs, limit, acc).value == (Crawl(rs[1..], limit, all).value.0, Crawl(rs[1..], limit, all).value.1 + 1)
  {
    assert acc + [] == acc;
  }

  // ---------------------------------------------------------------------
  // What the crawl promises
  // ---------------------------------------------------------------------

  /** The crawl makes at least one request and never more than there are replies. */
  lemma {:induction false} CrawlLength(rs: seq<Response>, limit: int, acc: seq<PlayItem>)
    requires Crawl(rs, limit, acc).Some?
    ensures 1 <= Crawl(rs, limit, acc).value.1 <= |rs|
  {
    if Readable(rs[0]) {
      var all := acc + ItemsOf(rs[0]);
      if !(|all| >= limit || rs[0].page.next == "") {
        CrawlLength(rs[1..], limit, all);
      }
    }
  }

  lemma ConcatFirst(rs: seq<Response>, m: nat)
    requires 1 <= m <= |rs|
    ensures Concat(rs[..m]) == ItemsOf(rs[0]) + Concat(rs[1..][..m - 1])
  {
    assert rs[..m][1..] == rs[1..][..m - 1];
  }

  /** The items a crawl that succeeds after `n` requests hands back, before the final cut. */
  ghost function Gathered(rs: seq<Response>, acc: seq<PlayItem>, n: nat): seq<PlayItem>
    requires n <= |rs|
  {
    acc + Concat(rs[..n])
  }

  /** Gathering from the second reply on, starting from what the first page added. */
  lemma GatheredFirst(rs: seq<Response>, acc: seq<PlayItem>, m: nat)
    requires 1 <= m <= |rs|
    ensures Gathered(rs, acc, m) == Gathered(rs[1..], acc + ItemsOf(rs[0]), m - 1)
  {
    ConcatFirst(rs, m);
  }

  /** After reply `k` the crawl was still short of `limit` and had a `next` link to follow. */
  ghost predicate Continued(rs: seq<Response>, acc: seq<PlayItem>, limit: int, k: nat)
    requires k < |rs|
  {
    |Gathered(rs, acc, k + 1)| < limit && NextOf(rs[k]) != ""
  }

  lemma {:induction false} CrawlSuccessItems(rs: seq<Response>, limit: int, acc: seq<PlayItem>, n: nat)
    requires Crawl(rs, limit, acc).Some? && Crawl(rs, limit, acc).value.0.Success?
    requires n == Crawl(rs, limit, acc).value.1
    ensures 1 <= n <= |rs|
    ensures Crawl(rs, limit, acc).value.0.value == SliceTo(Gathered(rs, acc, n), limit)
  {
    CrawlLength(rs, limit, acc);
    var all := acc + ItemsOf(rs[0]);
    GatheredFirst(rs, acc, n);
    if !(|all| >= limit || NextOf(rs[0]) == "") {
      CrawlSuccessItems(rs[1..], limit, all, n - 1);
    }
  }

  lemma {:induction false} CrawlSuccessOk(rs: seq<Response>, limit: int, acc: seq<PlayItem>, n: nat)
    requires Crawl(rs, limit, acc).Some? && Crawl(rs, limit, acc).value.0.Success?
    requires n == Crawl(rs, limit, acc).value.1
    ensures n <= |rs|
    ensures forall k :: 0 <= k < n ==> Readable(rs[k])
  {
    CrawlLength(rs, limit, acc);
    var all := acc + ItemsOf(rs[0]);
    if !(|all| >= limit || NextOf(rs[0]) == "") {
      CrawlSuccessOk(rs[1..], limit, all, n - 1);
      forall k | 0 < k < n ensures Readable(rs[k]) {
        assert rs[k] == rs[1..][k - 1];
      }
    }
  }

  lemma {:induction false} CrawlSuccessContinued(rs: seq<Response>, limit: int, acc: seq<PlayItem>, n: nat)
    requires Crawl(rs, limit, acc).Some? && Crawl(rs, limit, acc).value.0.Success?
    requires n == Crawl(rs, limit, acc).value.1
    ensures n <= |rs|
    ensures forall k :: 0 <= k < n - 1 ==> Continued(rs, acc, limit, k)
  {
    CrawlLength(rs, limit, acc);
    var all := acc + ItemsOf(rs[0]);
    if !(|all| >= limit || NextOf(rs[0]) == "") {
      var tail := rs[1..];
      CrawlSuccessContinued(tail, limit, all, n - 1);
      GatheredFirst(rs, acc, 1);
      assert Gathered(rs, acc, 1) == all by {
        assert tail[..0] == [];
      }
      forall k | 0 < k < n - 1 ensures Continued(rs, acc, limit, k) {
        assert Continued(tail, all, limit, k - 1);
        GatheredFirst(rs, acc, k + 1);
        assert rs[k] == tail[k - 1];
      }
    }
  }

  lemma {:induction false} CrawlSuccessStopped(rs: seq<Response>, limit: int, acc: seq<PlayItem>, n: nat)
    requires Crawl(rs, limit, acc).Some? && Crawl(rs, limit, acc).value.0.Success?
    requires n == Crawl(rs, limit, acc).value.1
    ensures 1 <= n <= |rs|
    ensures |Gathered(rs, acc, n)| >= limit || NextOf(rs[n - 1]) == ""
  {
    CrawlLength(rs, limit, acc);
    var all := acc + ItemsOf(rs[0]);
    GatheredFirst(rs, acc, n);
    if !(|all| >= limit || NextOf(rs[0]) == "") {
      CrawlSuccessStopped(rs[1..], limit, all, n - 1);
      assert rs[n - 1] == rs[1..][n - 2];
    }
  }

  /**
   * A successful crawl returns the first `limit` items of the pages it
   * fetched, in fetch order; every page but the last left it short of
   * `limit` with a `next` link, and the last page reached `limit` or had
   * no `next`.
   */
  lemma CrawlSuccess(rs: seq<Response>, limit: int, acc: seq<PlayItem>, n: nat)
    requires Crawl(rs, limit, acc).Some? && Crawl(rs, limit, acc).value.0.Success?
    requires n == Crawl(rs, limit, acc).value.1
    ensures 1 <= n <= |rs|
    ensures Crawl(rs, limit, acc).value.0.value == SliceTo(Gathered(rs, acc, n), limit)
    ensures forall k :: 0 <= k < n ==> Readable(rs[k])
    ensures forall k :: 0 <= k < n - 1 ==> Continued(rs, acc, limit, k)
    ensures |Gathered(rs, acc, n)| >= limit || NextOf(rs[n - 1]) == ""
  {
    CrawlSuccessItems(rs, limit, acc, n);
    CrawlSuccessOk(rs, limit, acc, n);
    CrawlSuccessContinued(rs, limit, acc, n);
    CrawlSuccessStopped(rs, limit, acc, n);
  }

  /**
   * A failed crawl failed on its last request, the first reply that is not
   * OK or whose body cannot be read; a 401 is told apart, and so is an
   * unreadable body.
   */
  lemma {:induction false} CrawlFailure(rs: seq<Response>, limit: int, acc: seq<PlayItem>, n: nat)
    requires Crawl(rs, limit, acc).Some? && Crawl(rs, limit, acc).value.0.Failure?
    requires n == Crawl(rs, limit, acc).value.1
    ensures 1 <= n <= |rs|
    ensures forall k :: 0 <= k < n - 1 ==> Readable(rs[k])
    ensures !Readable(rs[n - 1])
    ensures Crawl(rs, limit, acc).value.0.error == Unauthorized <==> rs[n - 1].Response? && rs[n - 1].status == 401
    ensures Crawl(rs, limit, acc).value.0.error.RequestFailed? <==>
      rs[n - 1].Response? && rs[n - 1].status != 401 && !IsOk(rs[n - 1].status)
    ensures Crawl(rs, limit, acc).value.0.error.RequestFailed? ==>
      Crawl(rs, limit, acc).value.0.error.status == rs[n - 1].status
    ensures Crawl(rs, limit, acc).value.0.error == BodyUnreadable <==> rs[n - 1].Response? && IsOk(rs[n - 1].status)
    ensures Crawl(rs, limit, acc).value.0.error.Thrown? <==> rs[n - 1].Rejected?
    ensures rs[n - 1].Rejected? ==> Crawl(rs, limit, acc).value.0.error == Thrown(rs[n - 1].message)
  {
    CrawlLength(rs, limit, acc);
    if Readable(rs[0]) {
      var all := acc + ItemsOf(rs[0]);
      CrawlFailure(rs[1..], limit, all, n - 1);
      forall k | 0 < k < n - 1 ensures Readable(rs[k]) {
        assert rs[k] == rs[1..][k - 1];
      }
      assert rs[n - 1] == rs[1..][n - 2];
    }
  }

  /**
   * The pagination has no bound of its own: while every reply is an OK
   * page with a `next` link that adds no items, a crawl short of `limit`
   * asks for another page, so no finite run of such replies ends it.
   */
  lemma {:induction false} EmptyPagesNeverStop(rs: seq<Response>, limit: int, acc: seq<PlayItem>)
    requires |acc| < limit
    requires forall k :: 0 <= k < |rs| ==> Readable(rs[k]) && ItemsOf(rs[k]) == [] && NextOf(rs[k]) != ""
    ensures Crawl(rs, limit, acc).None?
  {
    if rs != [] {
      assert acc + ItemsOf(rs[0]) == acc;
      EmptyPagesNeverStop(rs[1..], limit, acc);
    }
  }

  /**
   * So with a positive `limit`, a server that keeps answering empty pages
   * with a `next` link keeps `fetchRecentlyPlayed` fetching: however many
   * such replies it is given, the crawl has not ended.
   */
  lemma {:induction false} EmptyPagesNeverEnd(rs: seq<Response>, limit: int)
    requires limit > 0
    requires forall k :: 0 <= k < |rs| ==> Readable(rs[k]) && ItemsOf(rs[k]) == [] && NextOf(rs[k]) != ""
    ensures Crawl(rs, limit, []).None?
  {
    EmptyPagesNeverStop(rs, limit, []);
  }

  /** A first page without `next` ends the crawl after exactly one request. */
  lemma SinglePage(rs: seq<Response>, limit: int)
    requires rs != [] && Readable(rs[0]) && rs[0].page.next == ""
    ensures Crawl(rs, limit, []) == Some((Success(SliceTo(ItemsOf(rs[0]), limit)), 1))
  {
    assert [] + ItemsOf(rs[0]) == ItemsOf(rs[0]);
  }

  /** With a non-negative limit, a successful crawl returns `min(limit, total)` items, `total` counting every page it fetched. */
  lemma CrawlCount(rs: seq<Response>, limit: int, n: nat)
    requires limit >= 0
    requires Crawl(rs, limit, []).Some? && Crawl(rs, limit, []).value.0.Success?
    requires n == Crawl(rs, limit, []).value.1
    ensures n <= |rs|
    ensures var total := |Concat(rs[..n])|;
      |Crawl(rs, limit, []).value.0.value| == (if limit < total then limit else total)
  {
    CrawlSuccess(rs, limit, [], n);
    assert [] + Concat(rs[..n]) == Concat(rs[..n]);
  }

  // ---------------------------------------------------------------------
  // Token requests
  // ---------------------------------------------------------------------

  /** What a token request hands back on success: `access_token` and `refresh_token`, `""` when absent. */
  datatype Tokens = Tokens(accessToken: string, refreshToken: string)

  /**
   * The body of a token endpoint reply: a JSON object's `access_token`,
   * `refresh_token`, `error_description` and `error` (`""` when absent), or
   * text that is not JSON.
   */
  datatype TokenBody = TokenJson(accessToken: string, refreshToken: string, description: string, error: string)
                     | NotJson

  /** A token endpoint reply: its HTTP status and its body, or the error the `fetch` threw. */
  datatype TokenReply = TokenReply(status: int, body: TokenBody) | TokenRejected(message: string)

  /** A reply with an OK status. */
  predicate TokenOk(reply: TokenReply)
  {
    reply.TokenReply? && IsOk(reply.status)
  }

  /** A reply with a status that is not OK. */
  predicate TokenNotOk(reply: TokenReply)
  {
    reply.TokenReply? && !IsOk(reply.status)
  }

  /**
   * The error a token request throws: one the source builds, with the
   * text `new Error` is given (`code`), its message (the source overwrites
   * the message with other text for the verifier and exchange errors, so
   * the code does not survive there) and its HTTP status when it has one;
   * the `SyntaxError` that reading an OK reply whose body is not JSON
   * raises; or the error of a rejected `fetch`, passed on as it is.
   */
  datatype TokenFailure =
    | TokenFailure(code: string, message: string, status: Option<int>)
    | BodyNotJson
    | RequestThrew(message: string)

  /** The tokens an OK reply's JSON body carries. */
  function TokensOf(body: TokenBody): Tokens
    requires body.TokenJson?
  {
    Tokens(body.accessToken, body.refreshToken)
  }

  /**
   * `refreshAccessToken`: a rejected `fetch` passes its error on; any
   * non-OK reply throws `spotify_refresh_failed` whatever its body; an OK
   * reply hands back its JSON body, whose reading throws when it is not
   * JSON.
   */
  function RefreshAccessToken(reply: TokenReply): (r: Result<Tokens, TokenFailure>)
    ensures r.Success? <==> TokenOk(reply) && reply.body.TokenJson?
    ensures r.Success? ==> r.value == Tokens(reply.body.accessToken, reply.body.refreshToken)
    ensures reply.TokenRejected? ==> r == Failure(RequestThrew(reply.message))
    ensures TokenNotOk(reply) ==> r == Failure(TokenFailure("spotify_refresh_failed", "spotify_refresh_failed", None))
    ensures TokenOk(reply) && reply.body.NotJson? ==> r == Failure(BodyNotJson)
  {
    if reply.TokenRejected? then Failure(RequestThrew(reply.message))
    else if !IsOk(reply.status) then Failure(TokenFailure("spotify_refresh_failed", "spotify_refresh_failed", None))
    else if reply.body.NotJson? then Failure(BodyNotJson)
    else Success(TokensOf(reply.body))
  }

  const VerifierMissingMessage := "PKCE verifier not found. Please try logging in again."

  /** The message of a failed exchange whose body gave neither a description nor an error code. */
  function RedirectHint(status: int, redirectUri: string): string
  {
    "Token exchange failed with status " + IntToString(status)
    + ". Make sure the redirect URI in your Spotify app settings matches: " + redirectUri
  }

  /**
   * `getAccessToken`: without a stored verifier nothing is requested and
   * an error made as `spotify_pkce_verifier_missing` is thrown with the
   * log-in-again message; a rejected `fetch` passes its error on; a non-OK
   * reply throws an error made as `spotify_token_exchange_failed` whose
   * message is the server's description, its error code, or a hint naming
   * the redirect URI, in that order, a body that is not JSON counting as
   * one that gives neither; an OK reply hands back its JSON body, whose
   * reading throws when it is not JSON.
   */
  function GetAccessToken(verifier: string, reply: TokenReply, redirectUri: string): (r: Result<Tokens, TokenFailure>)
    ensures verifier == "" ==> r == Failure(TokenFailure("spotify_pkce_verifier_missing", VerifierMissingMessage, None))
    ensures r.Success? <==> verifier != "" && TokenOk(reply) && reply.body.TokenJson?
    ensures r.Success? ==> r.value == Tokens(reply.body.accessToken, reply.body.refreshToken)
    ensures verifier != "" && reply.TokenRejected? ==> r == Failure(RequestThrew(reply.message))
    ensures verifier != "" && TokenOk(reply) && reply.body.NotJson? ==> r == Failure(BodyNotJson)
    ensures verifier != "" && TokenNotOk(reply) ==>
      r.Failure? && r.error.TokenFailure? && r.error.code == "spotify_token_exchange_failed"
      && r.error.status == Some(reply.status)
    ensures verifier != "" && TokenNotOk(reply) ==>
      var desc := if reply.body.TokenJson? then reply.body.description else "";
      var code := if reply.body.TokenJson? then reply.body.error else "";
      r.error.message == if desc != "" then desc else if code != "" then code else RedirectHint(reply.status, redirectUri)
    ensures verifier != "" && TokenNotOk(reply) ==> r.error.message != ""
  {
    if verifier == "" then Failure(TokenFailure("spotify_pkce_verifier_missing", VerifierMissingMessage, None))
    else if reply.TokenRejected? then Failure(RequestThrew(reply.message))
    else if IsOk(reply.status) then
      if reply.body.NotJson? then Failure(BodyNotJson) else Success(TokensOf(reply.body))
    else
      var body := if reply.body.TokenJson? then reply.body else TokenJson("", "", "", "");
      var message :=
        if body.description != "" then body.description
        else if body.error != "" then body.error
        else RedirectHint(reply.status, redirectUri);
      Failure(TokenFailure("spotify_token_exchange_failed", message, Some(reply.status)))
  }
}
