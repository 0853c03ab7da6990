/**
 * `generateJournalEntry`: the OpenAI key lookup, the chat call, the
 * routing of its failures to the messages the user sees, and the fortune
 * taken from its reply.
 *
 * The chat-completions call is the parameter `chat`, which answers a key
 * and a prompt (given by its parts; `PromptText` renders them).
 */
module Fortune {
  import opened Common
  import opened Extraction
  import opened FortunePrompt

  // ---------------------------------------------------------------------
  // The API key
  // ---------------------------------------------------------------------

  const Placeholder := "YOUR_OPENAI_API_KEY_HERE"

  /**
   * `getOpenAIApiKey`: the key set on `window`, else the one from the
   * config script (`""` when unset); the placeholder counts as no key.
   */
  function ApiKey(windowKey: string, configKey: string): (r: Option<string>)
    ensures r.Some? ==> r.value != "" && r.value != Placeholder
    ensures r.Some? ==> r.value == (if windowKey != "" then windowKey else configKey)
    ensures r.None? <==>
      (windowKey != "" && windowKey == Placeholder) || (windowKey == "" && (configKey == "" || configKey == Placeholder))
  {
    var key := if windowKey != "" then windowKey else configKey;
    if key != "" && key != Placeholder then Some(key) else None
  }

  // ---------------------------------------------------------------------
  // Error messages
  // ---------------------------------------------------------------------

  // The messages are written in pieces of at most twenty characters, so
  // that which characters they hold can be checked piece by piece.

  const Msg401 := "Invalid OpenAI " + "API key" + ". Please check your config.js file contains window.OPENAI_API_KEY."
  const Msg429 := "OpenAI API " + "rate limit" + " exceeded. Please try again later."
  const MsgUnavailable := "OpenAI service is te" + "mp" + "orarily unavailable." + " Please try again la" + "ter."
  const MsgShape := "Unexpected response " + "format from OpenAI A" + "PI"
  const MsgNoFortune := "No fortune message f" + "ound in OpenAI respo" + "nse"
  const WrapPrefix := "Failed to generate journal entry: "
  const UnknownError := "Unknown " + "error"

  /** The text of a status other than 401, 429, 500 and 503: the status and the API's message, or `Unknown error`. */
  function Detail(status: int, errorMessage: string): string
  {
    "OpenAI API error" + (" (" + IntToString(status) + "): ") + (if errorMessage != "" then errorMessage else UnknownError)
  }

  /** The message thrown for a non-OK chat reply; `errorMessage` is the body's `error.message`, `""` when missing. */
  function StatusMessage(status: int, errorMessage: string): string
  {
    if status == 401 then Msg401
    else if status == 429 then Msg429
    else if status == 500 || status == 503 then MsgUnavailable
    else Detail(status, errorMessage)
  }

  /** The outer `catch`: key and rate-limit messages pass unchanged, any other gets a prefix. */
  function Rewrap(message: string): string
  {
    if Contains(message, "API key") || Contains(message, "rate limit") then message else WrapPrefix + message
  }

  /** A character of `sub` that `s` lacks shows that `s` does not contain `sub`. */
  lemma AbsentChar(s: string, sub: string, k: nat)
    requires k < |sub| && Lacks(s, sub[k])
    ensures !Contains(s, sub)
  {
    ContainsIffOccurs(s, sub);
  }

  /**
   * `s` is `a + [c, d] + b` with `c` in neither `a` nor `b`; a `sub` in
   * which `c` is followed by something other than `d` does not occur in `s`.
   */
  lemma AbsentPair(a: string, c: char, d: char, b: string, sub: string, k: nat)
    requires Lacks(a, c) && Lacks(b, c) && c != d
    requires k + 1 < |sub| && sub[k] == c && sub[k + 1] != d
    ensures !Contains(a + [c, d] + b, sub)
  {
    var s := a + [c, d] + b;
    ContainsIffOccurs(s, sub);
  }

  /** `String(n)` holds only digits and a minus sign. */
  lemma IntToStringLacks(n: int, c: char)
    requires !IsDigit(c) && c != '-'
    ensures Lacks(IntToString(n), c)
  {
    if n < 0 {
      LacksConcat("-", NatToString(-n), c);
    }
  }

  /**
   * In `h + t + m`, where `h + t` lacks the `k`-th character of `sub` and
   * the last part `t`, at least `k` long, lacks its first, `sub` can occur
   * only inside `m`.
   */
  lemma OccursOnlyInTail(h: string, t: string, m: string, sub: string, k: nat, x: int)
    requires k < |sub| && k <= |t|
    requires Lacks(h + t, sub[k]) && Lacks(t, sub[0])
    requires OccursAt(h + t + m, sub, x)
    ensures x >= |h + t| && OccursAt(m, sub, x - |h + t|)
  {
    var s, p := h + t + m, |h + t|;
    assert s[x + k] == sub[k];
    if x + k < p {
      assert false;
    }
    if x < p {
      assert false;
    }
    assert m[x - p..x - p + |sub|] == s[x..x + |sub|];
  }

  /** Under the conditions above, `sub` occurs in `h + t + m` only when it occurs in `m`. */
  lemma AbsentAcross(h: string, t: string, m: string, sub: string, k: nat)
    requires k < |sub| && k <= |t|
    requires Lacks(h + t, sub[k]) && Lacks(t, sub[0])
    requires !Contains(m, sub)
    ensures !Contains(h + t + m, sub)
  {
    ContainsIffOccurs(h + t + m, sub);
    ContainsIffOccurs(m, sub);
    forall x | OccursAt(h + t + m, sub, x) ensures OccursAt(m, sub, x - |h + t|) {
      OccursOnlyInTail(h, t, m, sub, k, x);
    }
  }

  /** What occurs in `m` occurs in any text that ends with `m`. */
  lemma ContainsSuffix(p: string, m: string, sub: string)
    requires Contains(m, sub)
    ensures Contains(p + m, sub)
  {
    ContainsIffOccurs(m, sub);
    ContainsIffOccurs(p + m, sub);
    var x :| OccursAt(m, sub, x);
    assert (p + m)[|p| + x..|p| + x + |sub|] == m[x..x + |sub|];
    assert OccursAt(p + m, sub, |p| + x);
  }

  /** The middle of the status text: the status between `" ("` and `"): "`, without `k`, `l`, `A` or `r`. */
  lemma StatusTextLacks(status: int)
    ensures var t := " (" + IntToString(status) + "): ";
      |t| >= 5 && Lacks(t, 'k') && Lacks(t, 'l') && Lacks(t, 'A') && Lacks(t, 'r')
  {
    var d := IntToString(status);
    IntToStringLacks(status, 'k');
    IntToStringLacks(status, 'l');
    IntToStringLacks(status, 'A');
    IntToStringLacks(status, 'r');
    LacksThree(" (", d, "): ", 'k');
    LacksThree(" (", d, "): ", 'l');
    LacksThree(" (", d, "): ", 'A');
    LacksThree(" (", d, "): ", 'r');
  }

  /** `Unknown error`, the stand-in for a missing API message, mentions neither an API key nor a rate limit. */
  lemma UnknownErrorMentionsNeither()
    ensures !Contains(UnknownError, "API key") && !Contains(UnknownError, "rate limit")
  {
    assert Lacks("Unknown ", 'A') && Lacks("error", 'A') && Lacks("Unknown ", 'l') && Lacks("error", 'l');
    LacksConcat("Unknown ", "error", 'A');
    LacksConcat("Unknown ", "error", 'l');
    AbsentChar(UnknownError, "API key", 0);
    AbsentChar(UnknownError, "rate limit", 5);
  }

  /** The text before the API's message lacks `k` and `l`, and its status part lacks `A` and `r`. */
  lemma DetailHeadLacks(status: int)
    ensures var h, t := "OpenAI API error", " (" + IntToString(status) + "): ";
      && |t| >= 5 && Lacks(t, 'A') && Lacks(t, 'r') && Lacks(h + t, 'k') && Lacks(h + t, 'l')
  {
    var h, t := "OpenAI API error", " (" + IntToString(status) + "): ";
    StatusTextLacks(status);
    assert Lacks(h, 'k') && Lacks(h, 'l');
    LacksConcat(h, t, 'k');
    LacksConcat(h, t, 'l');
  }

  /** The status text mentions `sub` exactly when the API's message does, `sub[k]` being absent from the text before it. */
  lemma DetailMentions(status: int, errorMessage: string, sub: string, k: nat)
    requires k < |sub| && k <= 5 && sub[0] in "Ar" && sub[k] in "kl"
    requires !Contains(UnknownError, sub)
    ensures Contains(Detail(status, errorMessage), sub) <==> Contains(errorMessage, sub)
  {
    var h, t := "OpenAI API error", " (" + IntToString(status) + "): ";
    var m := if errorMessage != "" then errorMessage else UnknownError;
    assert Detail(status, errorMessage) == h + t + m;
    if Contains(errorMessage, sub) {
      ContainsSuffix(h + t, m, sub);
    } else {
      DetailHeadLacks(status);
      AbsentAcross(h, t, m, sub, k);
    }
  }

  /**
   * The generic status text gets the prefix exactly when the API's own
   * message mentions neither an API key nor a rate limit.
   */
  lemma DetailRewrap(status: int, errorMessage: string)
    ensures Rewrap(Detail(status, errorMessage)) ==
      if Contains(errorMessage, "API key") || Contains(errorMessage, "rate limit") then Detail(status, errorMessage)
      else WrapPrefix + Detail(status, errorMessage)
  {
    UnknownErrorMentionsNeither();
    var key, limit := "API key", "rate limit";
    assert key[0] == 'A' && key[4] == 'k' && limit[0] == 'r' && limit[5] == 'l';
    DetailMentions(status, errorMessage, key, 4);
    DetailMentions(status, errorMessage, limit, 5);
  }

  lemma UnavailableIsWrapped()
    ensures Rewrap(MsgUnavailable) == WrapPrefix + MsgUnavailable
  {
    var a, b1, b2, b3 := "OpenAI service is te", "orarily unavailable.", " Please try again la", "ter.";
    assert Lacks(a, 'k') && Lacks(b1, 'k') && Lacks(b2, 'k') && Lacks(b3, 'k') && Lacks("mp", 'k');
    assert Lacks(a, 'm') && Lacks(b1, 'm') && Lacks(b2, 'm') && Lacks(b3, 'm');
    LacksConcat(a, "mp", 'k');
    LacksConcat(a + "mp", b1, 'k');
    LacksConcat(a + "mp" + b1, b2, 'k');
    LacksConcat(a + "mp" + b1 + b2, b3, 'k');
    AbsentChar(MsgUnavailable, "API key", 4);
    LacksConcat(b1, b2, 'm');
    LacksConcat(b1 + b2, b3, 'm');
    assert MsgUnavailable == a + ['m', 'p'] + (b1 + b2 + b3);
    AbsentPair(a, 'm', 'p', b1 + b2 + b3, "rate limit", 7);
  }

  /** Three pieces that all lack `c` make a string that lacks it. */
  lemma LacksThree(a: string, b: string, d: string, c: char)
    requires Lacks(a, c) && Lacks(b, c) && Lacks(d, c)
    ensures Lacks(a + b + d, c)
  {
    LacksConcat(a, b, c);
    LacksConcat(a + b, d, c);
  }

  lemma ShapeIsWrapped()
    ensures Rewrap(MsgShape) == WrapPrefix + MsgShape
  {
    var s1, s2, s3 := "Unexpected response ", "format from OpenAI A", "PI";
    assert Lacks(s1, 'k') && Lacks(s2, 'k') && Lacks(s3, 'k') && Lacks(s1, 'l') && Lacks(s2, 'l') && Lacks(s3, 'l');
    LacksThree(s1, s2, s3, 'k');
    LacksThree(s1, s2, s3, 'l');
    AbsentChar(MsgShape, "API key", 4);
    AbsentChar(MsgShape, "rate limit", 5);
  }

  lemma EmptyIsWrapped()
    ensures Rewrap(MsgNoFortune) == WrapPrefix + MsgNoFortune
  {
    var n1, n2, n3 := "No fortune message f", "ound in OpenAI respo", "nse";
    assert Lacks(n1, 'k') && Lacks(n2, 'k') && Lacks(n3, 'k') && Lacks(n1, 'l') && Lacks(n2, 'l') && Lacks(n3, 'l');
    LacksThree(n1, n2, n3, 'k');
    LacksThree(n1, n2, n3, 'l');
    AbsentChar(MsgNoFortune, "API key", 4);
    AbsentChar(MsgNoFortune, "rate limit", 5);
  }

  // ---------------------------------------------------------------------
  // The whole call
  // ---------------------------------------------------------------------

  /** A parsed chat-completions body: without `choices[0].message`, or with its content text. */
  datatype ChatBody = BadShape | Content(text: string)

  /**
   * How the chat call ends: a non-OK status with the body's
   * `error.message` (`""` when missing), an OK body, or a thrown error
   * with its message (network failure, a body that is not JSON, a content
   * that is not a string).
   */
  datatype ChatReply = HttpError(status: int, errorMessage: string) | Ok(body: ChatBody) | Thrown(message: string)

  /** `generateJournalEntry`'s result: `null` for a missing key, the fortune, or the error it throws. */
  datatype Outcome = NoKey | Fortune(value: Json) | Error(message: string)

  function GenerateJournalEntry(windowKey: string, configKey: string, songs: seq<SongLyrics>,
                                chat: (string, PromptParts) -> ChatReply, parse: string -> Option<Json>): (r: Outcome)
    ensures r.NoKey? <==> ApiKey(windowKey, configKey).None?
    ensures r.Fortune? ==> Usable(r.value)
    ensures r.Error? ==> r.message != ""
    ensures ApiKey(windowKey, configKey).Some? ==>
      var reply := chat(ApiKey(windowKey, configKey).value, PromptFor(songs));
      && (reply.Ok? && reply.body.Content? && Extract(Trim(reply.body.text), parse).Some? ==>
            r == Fortune(Extract(Trim(reply.body.text), parse).value))
      && (reply.Thrown? ==> r == Error(Rewrap(reply.message)))
  {
    match ApiKey(windowKey, configKey)
    case None => NoKey
    case Some(key) =>
      match chat(key, PromptFor(songs))
      case HttpError(status, errorMessage) => Error(Rewrap(StatusMessage(status, errorMessage)))
      case Thrown(message) => Error(Rewrap(message))
      case Ok(BadShape) => Error(Rewrap(MsgShape))
      case Ok(Content(text)) =>
        match Extract(Trim(text), parse)
        case Some(fortune) => Fortune(fortune)
        case None => Error(Rewrap(MsgNoFortune))
  }

  /**
   * How a non-OK status reaches the user: 401 and 429 keep their own
   * messages, 500 and 503 report the service unavailable, and every other
   * status quotes the API's message, behind the generic prefix unless that
   * message itself mentions an API key or a rate limit.
   */
  lemma ErrorRouting(windowKey: string, configKey: string, songs: seq<SongLyrics>,
                     chat: (string, PromptParts) -> ChatReply, parse: string -> Option<Json>)
    requires ApiKey(windowKey, configKey).Some?
    requires chat(ApiKey(windowKey, configKey).value, PromptFor(songs)).HttpError?
    ensures var reply := chat(ApiKey(windowKey, configKey).value, PromptFor(songs));
      var r := GenerateJournalEntry(windowKey, configKey, songs, chat, parse);
      && (reply.status == 401 ==> r == Error(Msg401))
      && (reply.status == 429 ==> r == Error(Msg429))
      && (reply.status == 500 || reply.status == 503 ==> r == Error(WrapPrefix + MsgUnavailable))
      && (reply.status != 401 && reply.status != 429 && reply.status != 500 && reply.status != 503 ==>
            var detail := Detail(reply.status, reply.errorMessage);
            r == Error(if Contains(reply.errorMessage, "API key") || Contains(reply.errorMessage, "rate limit")
                       then detail else WrapPrefix + detail))
  {
    var reply := chat(ApiKey(windowKey, configKey).value, PromptFor(songs));
    DetailRewrap(reply.status, reply.errorMessage);
    OccursInMiddle("Invalid OpenAI ", "API key", ". Please check your config.js file contains window.OPENAI_API_KEY.");
    OccursInMiddle("OpenAI API ", "rate limit", " exceeded. Please try again later.");
    UnavailableIsWrapped();
  }

  /** A malformed reply and a reply with nothing to extract are both reported behind the prefix. */
  lemma ShapeAndEmptyErrors(windowKey: string, configKey: string, songs: seq<SongLyrics>,
                            chat: (string, PromptParts) -> ChatReply, parse: string -> Option<Json>)
    requires ApiKey(windowKey, configKey).Some?
    ensures var reply := chat(ApiKey(windowKey, configKey).value, PromptFor(songs));
      var r := GenerateJournalEntry(windowKey, configKey, songs, chat, parse);
      && (reply == Ok(BadShape) ==> r == Error(WrapPrefix + MsgShape))
      && (reply.Ok? && reply.body.Content? && Extract(Trim(reply.body.text), parse).None? ==>
            r == Error(WrapPrefix + MsgNoFortune))
  {
    ShapeIsWrapped();
    EmptyIsWrapped();
  }
}
