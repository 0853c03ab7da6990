/**
 * The cascade that digs the fortune out of the chat model's reply text:
 * the whole text as JSON, then a fenced JSON block, then the span from the
 * first `{` to the last `}` around a quoted `message`, then the text
 * itself.  `JSON.parse` is the parameter `parse`, `None` when it throws.
 * The two regular expressions are written out as matchers.
 */
module Extraction {
  import opened Common

  /** A JSON value as `JSON.parse` returns it; numbers are integers here. */
  datatype Json =
    | JNull
    | JBool(b: bool)
    | JNum(n: int)
    | JStr(s: string)
    | JArr(items: seq<Json>)
    | JObj(fields: map<string, Json>)

  /** JavaScript truthiness. */
  predicate Truthy(j: Json)
  {
    match j
    case JNull => false
    case JBool(b) => b
    case JNum(n) => n != 0
    case JStr(s) => s != ""
    case _ => true
  }

  /** `j.message`: a field of an object, undefined (`None`) on anything else. */
  function MessageOf(j: Json): Option<Json>
  {
    if j.JObj? && "message" in j.fields then Some(j.fields["message"]) else None
  }

  /** `lit` occurs in `s` at index `i`. */
  predicate HasAt(s: string, i: nat, lit: string)
  {
    i + |lit| <= |s| && s[i..i + |lit|] == lit
  }

  /** An optional value that is a non-empty string. */
  predicate IsText(o: Option<Json>)
  {
    o.Some? && o.value.JStr? && o.value.s != ""
  }

  /**
   * Step 1: the whole content parsed as JSON; an object gives its
   * `message` when that is a non-empty string, a non-empty string gives
   * itself.
   */
  function Direct(content: string, parse: string -> Option<Json>): (r: Option<Json>)
    ensures r.Some? ==> IsText(r)
    ensures r.Some? <==>
      parse(content).Some? && (IsText(MessageOf(parse(content).value)) || IsText(parse(content)))
    ensures r.Some? && parse(content).value.JObj? ==> r == MessageOf(parse(content).value)
    ensures r.Some? && !parse(content).value.JObj? ==> r == parse(content)
  {
    match parse(content)
    case None => None
    case Some(j) =>
      var m := MessageOf(j);
      if m.Some? && m.value.JStr? && m.value.s != "" then m
      else if j.JStr? && j.s != "" then Some(j)
      else None
  }

  /** Three backticks start at `i`. */
  predicate Fence(s: string, i: nat)
  {
    i + 3 <= |s| && s[i] == '`' && s[i + 1] == '`' && s[i + 2] == '`'
  }

  /** The language tag `json` starts at `i`. */
  predicate JsonTag(s: string, i: nat)
  {
    i + 4 <= |s| && s[i] == 'j' && s[i + 1] == 's' && s[i + 2] == 'o' && s[i + 3] == 'n'
  }

  /** After a closing brace at `p - 1`: optional whitespace, then three backticks (`\s*` and a fence). */
  predicate FenceFollows(s: string, p: nat)
    requires p <= |s|
  {
    Fence(s, SpaceEnd(s, p))
  }

  /** A `}` at `m` that optional white space and a closing fence follow. */
  predicate Closes(s: string, m: nat)
  {
    m < |s| && s[m] == '}' && FenceFollows(s, m + 1)
  }

  /** The first `}` at or after `k` that a closing fence follows (`[\s\S]*?\}`, lazy). */
  function CloseFence(s: string, k: nat): (r: Option<nat>)
    requires k <= |s|
    ensures r.Some? ==> k <= r.value && Closes(s, r.value)
    ensures r.Some? ==> forall m :: k <= m < r.value ==> !Closes(s, m)
    ensures r.None? ==> forall m :: k <= m < |s| ==> !Closes(s, m)
    decreases |s| - k
  {
    if k == |s| then None
    else if s[k] == '}' && FenceFollows(s, k + 1) then Some(k)
    else CloseFence(s, k + 1)
  }

  /**
   * Where the group must start after a fence at `i`: past the optional
   * `json` tag and the white space.  With the tag present, the match
   * without it cannot succeed, as a `j` is neither white space nor `{`.
   */
  function GroupStart(s: string, i: nat): nat
    requires Fence(s, i)
  {
    SpaceEnd(s, if JsonTag(s, i + 3) then i + 7 else i + 3)
  }

  /** A fence at `i`, followed (after the tag and white space) by a `{`. */
  predicate Opens(s: string, i: nat)
  {
    Fence(s, i) && GroupStart(s, i) < |s| && s[GroupStart(s, i)] == '{'
  }

  /**
   * The bounds of the group of `` ```(?:json)?\s*(\{[\s\S]*?\})\s*``` ``
   * when it matches at `i`: it matches exactly when a fence opens a `{`
   * that some fence-followed `}` closes, and the group runs from that `{`
   * to the first such `}`.
   */
  function FenceAt(s: string, i: nat): (r: Option<(nat, nat)>)
    requires i <= |s|
    ensures r.Some? <==> Opens(s, i) && exists m :: GroupStart(s, i) < m && Closes(s, m)
    ensures r.Some? ==> r.value.0 == GroupStart(s, i) && r.value.0 < r.value.1 && Closes(s, r.value.1 - 1)
    ensures r.Some? ==> s[r.value.0] == '{' && forall m :: r.value.0 < m < r.value.1 - 1 ==> !Closes(s, m)
  {
    if !Fence(s, i) then None
    else
      var w := GroupStart(s, i);
      if w < |s| && s[w] == '{' then
        match CloseFence(s, w + 1)
        case None => None
        case Some(c) => Some((w, c + 1))
      else None
  }

  /** The fenced pattern matches at `q`: a fence there opens a `{` that a fence-followed `}` closes. */
  predicate MatchesAt(s: string, q: nat)
    requires q <= |s|
  {
    Opens(s, q) && CloseFence(s, GroupStart(s, q) + 1).Some?
  }

  /** The leftmost position at or after `i` where the fenced pattern matches. */
  function FindFence(s: string, i: nat): (r: Option<nat>)
    requires i <= |s|
    ensures r.Some? ==> i <= r.value <= |s| && MatchesAt(s, r.value)
    ensures r.Some? ==> forall q :: i <= q < r.value ==> !MatchesAt(s, q)
    ensures r.None? ==> forall q :: i <= q <= |s| ==> !MatchesAt(s, q)
    decreases |s| - i
  {
    if MatchesAt(s, i) then Some(i)
    else if i == |s| then None
    else FindFence(s, i + 1)
  }

  /** `match[1]` of the fenced pattern: the group of its leftmost match, from a `{` to a `}`. */
  function FencedBlock(s: string): (r: Option<string>)
    ensures r.Some? ==> |r.value| >= 2 && r.value[0] == '{' && r.value[|r.value| - 1] == '}'
  {
    match FindFence(s, 0)
    case None => None
    case Some(p) =>
      var (a, b) := FenceAt(s, p).value;
      Some(s[a..b])
  }

  /**
   * The fenced block is there exactly when the pattern matches somewhere,
   * and it is the group of the leftmost match.
   */
  lemma FencedBlockIsLeftmostGroup(s: string)
    ensures FencedBlock(s).Some? <==> exists p :: 0 <= p <= |s| && FenceAt(s, p).Some?
    ensures FencedBlock(s).Some? ==>
      exists p :: 0 <= p <= |s| && FenceAt(s, p).Some?
        && FencedBlock(s).value == s[FenceAt(s, p).value.0..FenceAt(s, p).value.1]
        && forall q :: 0 <= q < p ==> FenceAt(s, q).None?
  {
    match FindFence(s, 0)
    case None =>
      forall p | 0 <= p <= |s|
        ensures FenceAt(s, p).None?
      {
        MatchesAtIsMatch(s, p);
      }
    case Some(p) =>
      MatchesAtIsMatch(s, p);
      forall q | 0 <= q < p
        ensures FenceAt(s, q).None?
      {
        MatchesAtIsMatch(s, q);
      }
  }

  /** `MatchesAt` is exactly where `FenceAt` finds a group. */
  lemma MatchesAtIsMatch(s: string, q: nat)
    requires q <= |s|
    ensures FenceAt(s, q).Some? <==> MatchesAt(s, q)
  {
  }

  /** `if (parsed.message)`: an object with a truthy `message`. */
  predicate TruthyMessage(j: Json)
  {
    MessageOf(j).Some? && Truthy(MessageOf(j).value)
  }

  /** Step 2: the `message` of the first fenced JSON block, when truthy. */
  function Fenced(content: string, parse: string -> Option<Json>): (r: Option<Json>)
    ensures r.Some? ==> Truthy(r.value)
    ensures r.Some? <==>
      FencedBlock(content).Some? && parse(FencedBlock(content).value).Some?
      && TruthyMessage(parse(FencedBlock(content).value).value)
    ensures r.Some? ==> r == MessageOf(parse(FencedBlock(content).value).value)
  {
    match FencedBlock(content)
    case None => None
    case Some(block) =>
      match parse(block)
      case None => None
      case Some(j) =>
        var m := MessageOf(j);
        if m.Some? && Truthy(m.value) then m else None
  }

  /** `s.indexOf(c, from)`. */
  function FirstIndex(s: string, c: char, from: nat): (r: Option<nat>)
    requires from <= |s|
    ensures r.Some? ==> from <= r.value < |s| && s[r.value] == c
    ensures r.Some? ==> forall k :: from <= k < r.value ==> s[k] != c
    ensures r.None? ==> forall k :: from <= k < |s| ==> s[k] != c
    decreases |s| - from
  {
    if from == |s| then None else if s[from] == c then Some(from) else FirstIndex(s, c, from + 1)
  }

  /** `s.lastIndexOf(c)`. */
  function LastIndex(s: string, c: char): (r: Option<nat>)
    ensures r.Some? ==> r.value < |s| && s[r.value] == c && forall k :: r.value < k < |s| ==> s[k] != c
    ensures r.None? ==> forall k :: 0 <= k < |s| ==> s[k] != c
  {
    if s == [] then None
    else if s[|s| - 1] == c then Some(|s| - 1)
    else LastIndex(s[..|s| - 1], c)
  }

  /** `s.indexOf(sub, from)`. */
  function FindSub(s: string, sub: string, from: nat): (r: Option<nat>)
    requires from <= |s|
    ensures r.Some? ==> from <= r.value && HasAt(s, r.value, sub)
    ensures r.Some? ==> forall k :: from <= k < r.value ==> !HasAt(s, k, sub)
    ensures r.None? ==> forall k :: from <= k <= |s| ==> !HasAt(s, k, sub)
    decreases |s| - from
  {
    if HasAt(s, from, sub) then Some(from)
    else if from == |s| then None
    else FindSub(s, sub, from + 1)
  }

  const QuotedMessage := "\"message\""

  /** `\{[\s\S]*"message"[\s\S]*\}` matches `s[i..l + 1]` with its quoted `message` at `k`. */
  predicate SpanMatch(s: string, i: nat, k: nat, l: nat)
  {
    i < k && k + |QuotedMessage| <= l < |s| && s[i] == '{' && HasAt(s, k, QuotedMessage) && s[l] == '}'
  }

  /**
   * The match of `\{[\s\S]*"message"[\s\S]*\}`.  It exists exactly when
   * some `{` comes before a quoted `message` that some `}` follows; as the
   * leftmost match with greedy repetition it runs from the first `{` to
   * the last `}`.
   */
  function MessageSpan(s: string): (r: Option<string>)
    ensures r.Some? <==> exists i: nat, k: nat, l: nat :: SpanMatch(s, i, k, l)
    ensures r.Some? ==>
      exists i: nat, k: nat, l: nat ::
        && SpanMatch(s, i, k, l) && r.value == s[i..l + 1]
        && (forall m :: 0 <= m < i ==> s[m] != '{') && (forall m :: l < m < |s| ==> s[m] != '}')
  {
    match FirstIndex(s, '{', 0)
    case None => None
    case Some(i) =>
      match FindSub(s, QuotedMessage, i + 1)
      case None => None
      case Some(k) =>
        match LastIndex(s, '}')
        case None => None
        case Some(l) =>
          if k + |QuotedMessage| <= l then
            assert SpanMatch(s, i, k, l);
            Some(s[i..l + 1])
          else None
  }

  /** A character that `/["{}]/` matches. */
  predicate IsJsonChar(c: char)
  {
    c == '"' || c == '{' || c == '}'
  }

  /** `s.replace(/["{}]/g, "")`: quotes and braces go, every other character stays. */
  function StripJsonChars(s: string): (r: string)
    ensures forall i :: 0 <= i < |r| ==> !IsJsonChar(r[i])
    ensures (forall i :: 0 <= i < |s| ==> !IsJsonChar(s[i])) ==> r == s
  {
    if s == [] then []
    else
      assert s == [s[0]] + s[1..];
      if IsJsonChar(s[0]) then StripJsonChars(s[1..])
      else [s[0]] + StripJsonChars(s[1..])
  }

  /** Stripping removes every quote and brace and keeps every other character as often as it occurs. */
  lemma {:induction false} StripJsonCharsCounts(s: string)
    ensures forall c :: IsJsonChar(c) ==> multiset(StripJsonChars(s))[c] == 0
    ensures forall c :: !IsJsonChar(c) ==> multiset(StripJsonChars(s))[c] == multiset(s)[c]
  {
    if s != [] {
      assert s == [s[0]] + s[1..];
      StripJsonCharsCounts(s[1..]);
    }
  }

  /** Stripping works character by character, so the kept characters stay in their order. */
  lemma {:induction false} StripJsonCharsConcat(a: string, b: string)
    ensures StripJsonChars(a + b) == StripJsonChars(a) + StripJsonChars(b)
  {
    if a == [] {
      assert a + b == b;
    } else {
      assert (a + b)[1..] == a[1..] + b;
      StripJsonCharsConcat(a[1..], b);
    }
  }

  /**
   * Steps 3 and 4: the `message` of the span; the content stripped of
   * quotes and braces when the span is not JSON (or is `null`, whose
   * `.message` throws); the content itself when there is no span.
   */
  function Span(content: string, parse: string -> Option<Json>): Option<Json>
  {
    match MessageSpan(content)
    case None => Some(JStr(Trim(content)))
    case Some(span) =>
      match parse(span)
      case None => Some(JStr(Trim(StripJsonChars(content))))
      case Some(j) =>
        if j == JNull then Some(JStr(Trim(StripJsonChars(content))))
        else
          var m := MessageOf(j);
          if m.Some? && Truthy(m.value) then m else None
  }

  /**
   * What the caller accepts (`!m || m.length === 0` rejects the rest):
   * truthy, and not an empty array or an object whose `length` is `0`.
   * A truthy string is never empty, and numbers and booleans have no
   * `length`.
   */
  predicate Usable(j: Json)
  {
    && Truthy(j)
    && !(j.JArr? && |j.items| == 0)
    && !(j.JObj? && "length" in j.fields && j.fields["length"] == JNum(0))
  }

  /** The cascade on the trimmed reply text: the first step that yields something wins. */
  function Extract(content: string, parse: string -> Option<Json>): (r: Option<Json>)
    ensures r.Some? ==> Usable(r.value)
    ensures r.Some? ==> r == Direct(content, parse) || r == Fenced(content, parse) || r == Span(content, parse)
  {
    var d := Direct(content, parse);
    var found := if d.Some? then d else if Fenced(content, parse).Some? then Fenced(content, parse) else Span(content, parse);
    if found.Some? && Usable(found.value) then found else None
  }

  /** A reply that is itself JSON with a string message wins outright, fences or not. */
  lemma DirectWins(content: string, parse: string -> Option<Json>)
    requires Direct(content, parse).Some?
    ensures Extract(content, parse) == Some(Direct(content, parse).value)
  {
  }

  /** When the whole reply does not yield, the usable message of the first fenced block wins over any span. */
  lemma FencedWins(content: string, parse: string -> Option<Json>)
    requires Direct(content, parse).None? && Fenced(content, parse).Some? && Usable(Fenced(content, parse).value)
    ensures Extract(content, parse) == Fenced(content, parse)
  {
  }

  /**
   * A fenced `message` that is truthy but has a `length` of zero (an empty
   * array, say) ends the cascade: step 3 is skipped and the reply is
   * rejected.
   */
  lemma UnusableFencedStops(content: string, parse: string -> Option<Json>)
    requires Direct(content, parse).None? && Fenced(content, parse).Some? && !Usable(Fenced(content, parse).value)
    ensures Extract(content, parse) == None
  {
  }

  /** The lazy search skips every position before the first `}` that a fence follows. */
  lemma {:induction false} CloseFenceFinds(s: string, k: nat, c: nat)
    requires k <= c < |s| && CloseFence(s, c) == Some(c)
    requires forall m :: k <= m < c ==> s[m] != '}'
    ensures CloseFence(s, k) == Some(c)
    decreases c - k
  {
    if k < c {
      assert s[k] != '}';
      CloseFenceFinds(s, k + 1, c);
    }
  }

  /** The characters of a fenced reply that the fence matcher looks at. */
  lemma SimpleFenceChars(content: string, inner: string)
    requires content == "```json\n" + ("{" + inner + "}") + "\n```"
    ensures var c := 9 + |inner|;
      && Fence(content, 0) && JsonTag(content, 3) && IsSpace(content[7]) && content[8] == '{'
      && content[c] == '}' && IsSpace(content[c + 1]) && Fence(content, c + 2)
      && content[8..c + 1] == "{" + inner + "}"
      && forall i :: 9 <= i < c ==> content[i] == inner[i - 9]
  {
  }

  /** The fence matcher finds the block of a fenced reply whose object has no inner closing brace. */
  lemma SimpleFence(content: string, inner: string)
    requires content == "```json\n" + ("{" + inner + "}") + "\n```"
    requires Lacks(inner, '}')
    ensures FencedBlock(content) == Some("{" + inner + "}")
  {
    SimpleFenceChars(content, inner);
    var c := 9 + |inner|;
    assert SpaceEnd(content, 7) == 8;
    assert GroupStart(content, 0) == 8;
    assert SpaceEnd(content, c + 1) == c + 2;
    assert CloseFence(content, c) == Some(c);
    CloseFenceFinds(content, 9, c);
    assert FenceAt(content, 0) == Some((8, c + 1));
  }

  /**
   * A reply of the form ```` ```json ````, a newline, one JSON object
   * without inner closing braces, a newline and ```` ``` ```` yields that
   * object's message, when the whole reply is not JSON itself.
   */
  lemma FencedBlockYieldsMessage(content: string, inner: string, m: string, parse: string -> Option<Json>)
    requires content == "```json\n" + ("{" + inner + "}") + "\n```"
    requires Lacks(inner, '}')
    requires Direct(content, parse).None?
    requires parse("{" + inner + "}").Some? && MessageOf(parse("{" + inner + "}").value) == Some(JStr(m)) && m != ""
    ensures Extract(content, parse) == Some(JStr(m))
  {
    SimpleFence(content, inner);
    assert Fenced(content, parse) == Some(JStr(m));
    FencedWins(content, parse);
  }

  /** Without a `{`, neither a fenced block nor a message span can match. */
  lemma NoBraceNoMatch(s: string)
    requires forall k :: 0 <= k < |s| ==> s[k] != '{'
    ensures FencedBlock(s).None? && MessageSpan(s).None?
  {
    forall p | 0 <= p <= |s| ensures FenceAt(s, p).None? {
      if Fence(s, p) {
        assert !Opens(s, p);
      }
    }
  }

  /** Failing steps 1 and 2, a reply with no span is taken as plain text, and an empty one is an error. */
  lemma NoSpanGivesText(content: string, parse: string -> Option<Json>)
    requires Direct(content, parse).None? && Fenced(content, parse).None? && MessageSpan(content).None?
    ensures Trim(content) != "" ==> Extract(content, parse) == Some(JStr(Trim(content)))
    ensures Trim(content) == "" ==> Extract(content, parse) == None
  {
    NoSpanSpan(content, parse);
    ExtractAfterFence(content, parse);
  }

  lemma NoSpanSpan(content: string, parse: string -> Option<Json>)
    requires MessageSpan(content).None?
    ensures Span(content, parse) == Some(JStr(Trim(content)))
  {
  }

  /** A reply without braces that is not JSON itself is taken as plain text; an empty one is an error. */
  lemma PlainTextReply(content: string, parse: string -> Option<Json>)
    requires forall k :: 0 <= k < |content| ==> content[k] != '{'
    requires Direct(content, parse).None?
    ensures Trim(content) != "" ==> Extract(content, parse) == Some(JStr(Trim(content)))
    ensures Trim(content) == "" ==> Extract(content, parse) == None
  {
    NoBraceNoMatch(content);
    NoSpanGivesText(content, parse);
  }

  /** Failing steps 1 and 2, a span that parses to an object with a usable `message` yields that message. */
  lemma SpanMessageWins(content: string, parse: string -> Option<Json>, span: string, j: Json)
    requires Direct(content, parse).None? && Fenced(content, parse).None?
    requires MessageSpan(content) == Some(span) && parse(span) == Some(j)
    requires MessageOf(j).Some? && Usable(MessageOf(j).value)
    ensures Extract(content, parse) == MessageOf(j)
  {
  }

  /** Failing steps 1 and 2, a span that is JSON other than `null` without a truthy `message` yields nothing. */
  lemma SpanWithoutMessage(content: string, parse: string -> Option<Json>, span: string, j: Json)
    requires Direct(content, parse).None? && Fenced(content, parse).None?
    requires MessageSpan(content) == Some(span) && parse(span) == Some(j) && j != JNull && !TruthyMessage(j)
    ensures Extract(content, parse) == None
  {
  }

  /**
   * Failing steps 1 and 2, a span that is not JSON (or is `null`) falls
   * back to the reply with quotes and braces removed, and to an error
   * when nothing is left.
   */
  lemma SpanOfUnparsable(content: string, parse: string -> Option<Json>)
    requires Direct(content, parse).None? && Fenced(content, parse).None?
    requires MessageSpan(content).Some?
    requires parse(MessageSpan(content).value).None? || parse(MessageSpan(content).value) == Some(JNull)
    ensures var t := Trim(StripJsonChars(content));
      Extract(content, parse) == if t != "" then Some(JStr(t)) else None
  {
    SpanOfUnparsableSpan(content, parse);
    ExtractAfterFence(content, parse);
  }

  lemma SpanOfUnparsableSpan(content: string, parse: string -> Option<Json>)
    requires MessageSpan(content).Some?
    requires parse(MessageSpan(content).value).None? || parse(MessageSpan(content).value) == Some(JNull)
    ensures Span(content, parse) == Some(JStr(Trim(StripJsonChars(content))))
  {
  }

  /** Failing steps 1 and 2, the cascade hands back what the span step yields, when the caller accepts it. */
  lemma ExtractAfterFence(content: string, parse: string -> Option<Json>)
    requires Direct(content, parse).None? && Fenced(content, parse).None?
    ensures var s := Span(content, parse);
      Extract(content, parse) == if s.Some? && Usable(s.value) then s else None
  {
  }

  /** A `message` that is an object with a `length` of `0` is rejected, as `fortuneMessage.length === 0` rejects it. */
  lemma ZeroLengthMessageRejected(content: string, parse: string -> Option<Json>, span: string)
    requires Direct(content, parse).None? && Fenced(content, parse).None?
    requires MessageSpan(content) == Some(span)
    requires parse(span) == Some(JObj(map["message" := JObj(map["length" := JNum(0)])]))
    ensures Extract(content, parse) == None
  {
  }

  /**
   * A span whose parsed `message` is truthy but fails the length check (an
   * empty array, an object with a `length` of `0`) is not replaced by the
   * stripped text: the cascade ends with nothing.
   */
  lemma SpanUnusableMessageRejected(content: string, parse: string -> Option<Json>, span: string, j: Json)
    requires Direct(content, parse).None? && Fenced(content, parse).None?
    requires MessageSpan(content) == Some(span) && parse(span) == Some(j)
    requires TruthyMessage(j) && !Usable(MessageOf(j).value)
    ensures Extract(content, parse) == None
  {
  }

  /** The fallback text holds no quote and no brace. */
  lemma StrippedTextIsBare(content: string)
    ensures var t := Trim(StripJsonChars(content));
      Lacks(t, '"') && Lacks(t, '{') && Lacks(t, '}')
  {
    var s := StripJsonChars(content);
    assert Lacks(s, '"') && Lacks(s, '{') && Lacks(s, '}');
    TrimAvoids(s, '"');
    TrimAvoids(s, '{');
    TrimAvoids(s, '}');
  }

}
