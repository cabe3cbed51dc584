/**
 * The string and list rules of the AI service: which model a request goes to, what
 * prompt it carries, how the reply is classified and cleaned. The HTTP exchanges
 * themselves are inputs: the models listing and the generation reply arrive as records.
 */
module AiService {
  import opened Wrappers
  import opened Text
  import opened Seqs

  const ModelsPrefix: string := "models/"
  const AutoModel: string := "auto"
  /** The model used when the listing cannot be read or offers nothing usable. */
  const FallbackModel: string := "gemini-1.5-flash-001"
  const GenerateMethod: string := "generateContent"
  /** Name fragments in order of preference. */
  const PreferredFragments: seq<string> := ["gemini-1.5-flash", "gemini-1.5-pro", "gemini-1.0-pro", "gemini-pro"]

  const FixRateLimitMessage: string := "Rate limit exceeded. Please wait a moment before trying again."
  const RateLimitMessage: string := "Rate limit exceeded. Please wait a moment."
  const DefaultErrorMessage: string := "Failed to contact Gemini"
  const NoResponseMessage: string := "No response from AI"

  const FixPromptHead: string :=
    "You are a JSON repair tool. Your task is to fix the following invalid JSON string.\n" +
    "  Rules:\n" +
    "  1. Output ONLY the valid JSON. No markdown, no \"here is the fixed json\", no explanations.\n" +
    "  2. If it is already valid, return it as is.\n" +
    "  3. Format it nicely with 2 spaces indentation.\n" +
    "  \n" +
    "  Invalid JSON:\n" +
    "  "
  const SchemaSystemPrompt: string :=
    "You are a TypeScript expert. Generate a TypeScript interface for this JSON.\n" +
    "      Rules:\n" +
    "      1. Output ONLY the TypeScript code. No markdown fences.\n" +
    "      2. Use 'Root' as the main interface name.\n" +
    "      3. Use nice indentation."
  const ExplainSystemPrompt: string :=
    "Explain this JSON data in simple terms.\n" +
    "      Rules:\n" +
    "      1. Be concise. High-level summary of what this data represents.\n" +
    "      2. Mention key fields if important.\n" +
    "      3. No markdown formatting, just plain text or simple bullet points."

  /** A listed model: its name and its supported generation methods (absent ones are empty). */
  datatype ModelInfo = ModelInfo(name: string, methods: seq<string>)

  /**
   * The models listing: unavailable when the request or its body fails, otherwise the
   * HTTP `ok` flag and the listed models (an absent list is empty).
   */
  datatype ListResponse = ListUnavailable | Listed(ok: bool, models: seq<ModelInfo>)

  /** The body of a generation reply: unreadable, or its error message and reply text ("" when absent). */
  datatype ReplyBody = Unreadable(reason: string) | Body(errorMessage: string, text: string)

  /** A generation reply: the request failed outright, or an HTTP status, `ok` flag and body. */
  datatype Reply = Unreachable(reason: string) | Answered(status: int, ok: bool, body: ReplyBody)

  /** What one call sends and what it yields: the model path, the prompt and the outcome. */
  datatype Exchange = Exchange(model: string, prompt: string, outcome: Result<string>)

  // ---------------------------------------------------------------------------
  // Model names

  /** `cleanModelName`: the name with a `models/` prefix, added only when missing. */
  function CleanModelName(name: string): (r: string)
    ensures StartsWith(r, ModelsPrefix) && EndsWith(r, name)
    ensures StartsWith(name, ModelsPrefix) ==> r == name
    ensures |r| <= |name| + |ModelsPrefix|
  {
    if StartsWith(name, ModelsPrefix) then name else ModelsPrefix + name
  }

  lemma CleanModelNameIdempotent(name: string)
    ensures CleanModelName(CleanModelName(name)) == CleanModelName(name)
  {
  }

  /** The model a call uses: the preferred one, unless it is empty or `auto`. */
  function ResolveModel(preferred: string, listing: ListResponse): (r: string)
    ensures preferred != "" && preferred != AutoModel ==> r == preferred
    ensures preferred == "" || preferred == AutoModel ==> r == BestModel(listing)
  {
    if preferred == "" || preferred == AutoModel then BestModel(listing) else preferred
  }

  // ---------------------------------------------------------------------------
  // Choosing a model from the listing

  predicate IsCapable(m: ModelInfo)
  {
    GenerateMethod in m.methods
  }

  /** `listModels`: the capable models in listing order, or none when the listing failed. */
  function ListModels(listing: ListResponse): (r: seq<ModelInfo>)
    ensures listing.ListUnavailable? || !listing.ok ==> r == []
    ensures listing.Listed? && listing.ok ==> r == Filter(listing.models, IsCapable)
    ensures forall i :: 0 <= i < |r| ==> IsCapable(r[i]) && r[i] in listing.models
    ensures listing.Listed? && listing.ok ==>
      forall i :: 0 <= i < |listing.models| && IsCapable(listing.models[i]) ==> listing.models[i] in r
  {
    match listing
    case ListUnavailable => []
    case Listed(ok, models) => if ok then Filter(models, IsCapable) else []
  }

  /** Matches models whose name contains `fragment`. */
  function NameHas(fragment: string): ModelInfo -> bool
  {
    (m: ModelInfo) => Contains(m.name, fragment)
  }

  /** The `find(...) || find(...) || ... || valid[0]` chain, as an index into `valid`. */
  function FirstPreferred(valid: seq<ModelInfo>, fragments: seq<string>): (r: Option<nat>)
    ensures r.Some? ==> r.value < |valid|
    ensures r.None? <==> valid == []
  {
    if fragments == [] then (if valid == [] then None else Some(0))
    else match FindIndex(valid, NameHas(fragments[0]))
      case Some(i) => Some(i)
      case None => FirstPreferred(valid, fragments[1..])
  }

  /**
   * The preference order: the first fragment that some model's name contains decides,
   * and then the first such model is chosen; when no fragment matches, the first model.
   */
  lemma FirstPreferredChoice(valid: seq<ModelInfo>, fragments: seq<string>, k: nat)
    requires k < |fragments|
    requires forall j :: 0 <= j < k ==> FindIndex(valid, NameHas(fragments[j])).None?
    ensures FindIndex(valid, NameHas(fragments[k])).Some? ==>
      FirstPreferred(valid, fragments) == FindIndex(valid, NameHas(fragments[k]))
    ensures k == |fragments| - 1 && FindIndex(valid, NameHas(fragments[k])).None? && valid != [] ==>
      FirstPreferred(valid, fragments) == Some(0)
  {
    SkipMisses(valid, fragments, k);
    var tail := fragments[k..];
    assert tail[0] == fragments[k];
    if FindIndex(valid, NameHas(tail[0])).None? && k == |fragments| - 1 {
      FirstPreferredSkip(valid, tail);
      assert tail[1..] == [];
    }
  }

  /** Fragments that no model contains do not influence the choice. */
  lemma {:induction false} SkipMisses(valid: seq<ModelInfo>, fragments: seq<string>, k: nat)
    requires k <= |fragments|
    requires forall j :: 0 <= j < k ==> FindIndex(valid, NameHas(fragments[j])).None?
    ensures FirstPreferred(valid, fragments) == FirstPreferred(valid, fragments[k..])
  {
    if k == 0 {
      assert fragments[k..] == fragments;
    } else {
      var rest := fragments[1..];
      FirstPreferredSkip(valid, fragments);
      forall j | 0 <= j < k - 1 ensures FindIndex(valid, NameHas(rest[j])).None? {
        assert rest[j] == fragments[j + 1];
      }
      SkipMisses(valid, rest, k - 1);
      assert rest[k - 1..] == fragments[k..];
    }
  }

  /** A fragment that no model contains passes the choice on to the next one. */
  lemma FirstPreferredSkip(valid: seq<ModelInfo>, fragments: seq<string>)
    requires fragments != [] && FindIndex(valid, NameHas(fragments[0])).None?
    ensures FirstPreferred(valid, fragments) == FirstPreferred(valid, fragments[1..])
  {
  }

  /** `getBestModel`: the preferred capable model's name, or the fallback on every failure path. */
  function BestModel(listing: ListResponse): (r: string)
    ensures listing.ListUnavailable? || !listing.ok ==> r == FallbackModel
  {
    match listing
    case ListUnavailable => FallbackModel
    case Listed(ok, models) =>
      if !ok then FallbackModel
      else
        var valid := Filter(models, IsCapable);
        match FirstPreferred(valid, PreferredFragments)
        case Some(i) => valid[i].name
        case None => FallbackModel
  }

  /**
   * The chosen name always belongs to a capable listed model, and the fallback is used
   * exactly when the listing failed or had no capable model.
   */
  lemma BestModelChoice(listing: ListResponse)
    ensures var capable := ListModels(listing);
      && (capable == [] ==> BestModel(listing) == FallbackModel)
      && (capable != [] ==> exists i :: 0 <= i < |capable| && BestModel(listing) == capable[i].name)
  {
    var capable := ListModels(listing);
    if capable != [] {
      var i := FirstPreferred(capable, PreferredFragments).value;
      assert BestModel(listing) == capable[i].name;
    }
  }

  /** With a `gemini-1.5-flash` model among the capable ones, the first such model is chosen. */
  lemma BestModelPrefersFlash(listing: ListResponse)
    requires listing.Listed? && listing.ok
    requires FindIndex(ListModels(listing), NameHas(PreferredFragments[0])).Some?
    ensures var capable := ListModels(listing);
      BestModel(listing) == capable[FindIndex(capable, NameHas(PreferredFragments[0])).value].name
  {
    FirstPreferredChoice(ListModels(listing), PreferredFragments, 0);
  }

  // ---------------------------------------------------------------------------
  // Cleaning the reply

  /** Length of a language tag after a fence, with the newline that may follow it. */
  function TagLength(t: string, langs: seq<string>): (r: nat)
    ensures r <= |t|
  {
    if langs == [] then 0
    else if StartsWith(t, langs[0]) then
      |langs[0]| + (if |t| > |langs[0]| && t[|langs[0]|] == '\n' then 1 else 0)
    else TagLength(t, langs[1..])
  }

  /**
   * Length of the fence match at the start of `s`: the alternatives "```lang\n?" in the
   * order of `langs`, then a bare "```"; 0 when `s` does not start with a fence.
   */
  function FenceLength(s: string, langs: seq<string>): (r: nat)
    ensures r <= |s|
    ensures r > 0 ==> StartsWith(s, "```")
  {
    if StartsWith(s, "```") then 3 + TagLength(s[3..], langs) else 0
  }

  /** A global regular-expression replace of the fence alternatives with "": one left-to-right scan. */
  function RemoveFences(s: string, langs: seq<string>): (r: string)
    ensures |r| <= |s|
    decreases |s|
  {
    if s == [] then []
    else
      var f := FenceLength(s, langs);
      if f > 0 then RemoveFences(s[f..], langs) else [s[0]] + RemoveFences(s[1..], langs)
  }

  /** Text without a backtick passes through fence removal unchanged, also in front of other text. */
  lemma {:induction false} RemoveFencesKeepsPlainPrefix(a: string, b: string, langs: seq<string>)
    requires '`' !in a
    ensures RemoveFences(a + b, langs) == a + RemoveFences(b, langs)
    decreases |a|
  {
    if a == [] {
      assert a + b == b;
    } else {
      var tail := a[1..];
      assert a == [a[0]] + tail;
      PlainStep(a, b, langs);
      RemoveFencesKeepsPlainPrefix(tail, b, langs);
      ConsAssoc(a[0], tail, RemoveFences(b, langs));
    }
  }

  /** A first character that is not a backtick is kept, and the scan goes on after it. */
  lemma PlainStep(a: string, b: string, langs: seq<string>)
    requires a != [] && a[0] != '`'
    ensures RemoveFences(a + b, langs) == [a[0]] + RemoveFences(a[1..] + b, langs)
  {
    var s := a + b;
    assert s[0] == a[0];
    NoFenceWithoutBacktick(s, langs);
    assert s[1..] == a[1..] + b;
  }

  lemma ConsAssoc(c: char, x: string, y: string)
    ensures [c] + (x + y) == ([c] + x) + y
  {
  }

  /** A fence starts with a backtick. */
  lemma NoFenceWithoutBacktick(s: string, langs: seq<string>)
    requires s != [] && s[0] != '`'
    ensures FenceLength(s, langs) == 0
    ensures RemoveFences(s, langs) == [s[0]] + RemoveFences(s[1..], langs)
  {
    if |s| >= 3 {
      assert s[..3][0] == s[0];
    }
  }

  /** Three backticks start at position `i`: `r[i..i + 3] == "```"`. */
  predicate FenceAt(r: string, i: nat)
    requires i + 2 < |r|
  {
    r[i] == '`' && r[i + 1] == '`' && r[i + 2] == '`'
  }

  /** No three consecutive backticks: nothing that would open or close a fence. */
  predicate NoFence(r: string)
  {
    forall i: nat :: i + 2 < |r| ==> !FenceAt(r, i)
  }

  /**
   * The scan leaves no fence behind: every "```" it meets is removed, and the backticks
   * it keeps are never three in a row, even across a removed fence.
   */
  lemma {:induction false} NoFenceLeft(s: string, langs: seq<string>)
    ensures NoFence(RemoveFences(s, langs))
    decreases |s|
  {
    if s != [] {
      var f := FenceLength(s, langs);
      if f > 0 {
        NoFenceLeft(s[f..], langs);
      } else {
        var t := s[1..];
        NoFenceLeft(t, langs);
        var rest := RemoveFences(t, langs);
        assert RemoveFences(s, langs) == [s[0]] + rest;
        if s[0] == '`' && |rest| >= 2 {
          KeptBacktick(s, langs);
        }
        ConsNoFence(s[0], rest);
      }
    }
  }

  /**
   * A backtick kept by the scan is not followed by two more in what the rest of the scan
   * keeps: the text after it continues with a non-backtick, or with one backtick and then
   * a non-backtick.
   */
  lemma KeptBacktick(s: string, langs: seq<string>)
    requires s != [] && s[0] == '`' && FenceLength(s, langs) == 0
    ensures var rest := RemoveFences(s[1..], langs); |rest| >= 2 ==> rest[0] != '`' || rest[1] != '`'
  {
    var t := s[1..];
    assert !StartsWith(s, "```");
    if |t| >= 2 && t[0] == '`' {
      assert s[..3] == [s[0], t[0], t[1]];
      assert t[1] != '`';
      assert !StartsWith(t, "```") by { if |t| >= 3 { assert t[..3][1] == t[1]; } }
      assert RemoveFences(t, langs) == [t[0]] + RemoveFences(t[1..], langs);
      KeptStart(t[1..], langs);
    } else if |t| == 1 && t[0] == '`' {
      assert t == "`";
      assert RemoveFences(t, langs) == "`" + RemoveFences(t[1..], langs);
    } else if t != [] {
      KeptStart(t, langs);
    }
  }

  /** Fence removal keeps a first character that is not a backtick first. */
  lemma KeptStart(s: string, langs: seq<string>)
    requires s != [] && s[0] != '`'
    ensures var r := RemoveFences(s, langs); r != [] && r[0] == s[0]
  {
    NoFenceWithoutBacktick(s, langs);
  }

  /** One more character in front keeps the text fence-free unless it completes a "```". */
  lemma ConsNoFence(c: char, t: string)
    requires NoFence(t)
    requires c == '`' && |t| >= 2 ==> t[0] != '`' || t[1] != '`'
    ensures NoFence([c] + t)
  {
    var r := [c] + t;
    forall i: nat | i + 2 < |r| ensures !FenceAt(r, i) {
      if i > 0 {
        assert FenceAt(r, i) == FenceAt(t, i - 1);
        assert r[i] == t[i - 1] && r[i + 1] == t[i] && r[i + 2] == t[i + 1];
      }
    }
  }

  /** A piece of fence-free text is fence-free. */
  lemma NoFenceSlice(s: string, a: nat, b: nat)
    requires NoFence(s) && a <= b <= |s|
    ensures NoFence(s[a..b])
  {
    var r := s[a..b];
    forall i: nat | i + 2 < |r| ensures !FenceAt(r, i) {
      assert r[i] == s[a + i] && r[i + 1] == s[a + i + 1] && r[i + 2] == s[a + i + 2];
      assert FenceAt(r, i) == FenceAt(s, a + i);
    }
  }

  /** Trimming fence-free text leaves it fence-free. */
  lemma TrimmedNoFence(s: string)
    requires NoFence(s)
    ensures NoFence(Trim(s))
  {
    var t := TrimStart(s);
    TrimStartNoFence(s);
    TrimEndNoFence(t);
    assert Trim(s) == TrimEnd(t);
  }

  lemma TrimStartNoFence(s: string)
    requires NoFence(s)
    ensures NoFence(TrimStart(s))
  {
    var t := TrimStart(s);
    assert s[|s| - |t|..|s|] == t;
    NoFenceSlice(s, |s| - |t|, |s|);
  }

  lemma TrimEndNoFence(t: string)
    requires NoFence(t)
    ensures NoFence(TrimEnd(t))
  {
    var r := TrimEnd(t);
    assert t[0..|r|] == r;
    NoFenceSlice(t, 0, |r|);
  }

  /** The fix reply cleanup: "```json" fences and bare fences removed, then trimmed. */
  function CleanFixReply(text: string): (r: string)
    ensures NoFence(r)
    ensures r == [] || (!IsJsWhitespace(r[0]) && !IsJsWhitespace(r[|r| - 1]))
  {
    NoFenceLeft(text, ["json"]);
    TrimmedNoFence(RemoveFences(text, ["json"]));
    Trim(RemoveFences(text, ["json"]))
  }

  /** The generic reply cleanup, which also removes "```typescript" fences. */
  function CleanReply(text: string): (r: string)
    ensures NoFence(r)
    ensures r == [] || (!IsJsWhitespace(r[0]) && !IsJsWhitespace(r[|r| - 1]))
  {
    NoFenceLeft(text, ["typescript", "json"]);
    TrimmedNoFence(RemoveFences(text, ["typescript", "json"]));
    Trim(RemoveFences(text, ["typescript", "json"]))
  }

  /** A reply with no backtick is only trimmed, by either cleanup. */
  lemma PlainReplyOnlyTrimmed(text: string)
    requires '`' !in text
    ensures CleanFixReply(text) == Trim(text) && CleanReply(text) == Trim(text)
  {
    RemoveFencesKeepsPlainPrefix(text, "", ["json"]);
    RemoveFencesKeepsPlainPrefix(text, "", ["typescript", "json"]);
    assert text + "" == text;
  }

  /** A reply wrapped in a tagged fence is unwrapped to its trimmed body. */
  lemma FencedReplyUnwrapped(body: string)
    requires '`' !in body
    ensures CleanFixReply("```json\n" + body + "```") == Trim(body)
    ensures CleanReply("```json\n" + body + "```") == Trim(body)
    ensures CleanReply("```typescript\n" + body + "```") == Trim(body)
  {
    var close := body + "```";
    FenceOpens("```json\n", close, ["json"]);
    FenceThenPlain("```json\n", body, ["json"]);
    FenceOpens("```json\n", close, ["typescript", "json"]);
    FenceThenPlain("```json\n", body, ["typescript", "json"]);
    FenceOpens("```typescript\n", close, ["typescript", "json"]);
    FenceThenPlain("```typescript\n", body, ["typescript", "json"]);
  }

  /** A fence tagged with one of the languages and a newline is matched whole, whatever follows it. */
  lemma FenceOpens(open: string, rest: string, langs: seq<string>)
    requires (open == "```json\n" && (langs == ["json"] || langs == ["typescript", "json"]))
          || (open == "```typescript\n" && langs == ["typescript", "json"])
    ensures FenceLength(open + rest, langs) == |open|
  {
    var s := open + rest;
    var t := s[3..];
    assert s[..3] == "```";
    if open == "```json\n" {
      assert t[..4] == "json" && t[4] == '\n';
      if langs == ["typescript", "json"] {
        assert t[0] != "typescript"[0];
        TagSkips(t, langs);
        TagMatches(t, langs[1..]);
      } else {
        TagMatches(t, langs);
      }
    } else {
      assert t[..10] == "typescript" && t[10] == '\n';
      TagMatches(t, langs);
    }
  }

  lemma TagMatches(t: string, langs: seq<string>)
    requires langs != [] && StartsWith(t, langs[0]) && |t| > |langs[0]| && t[|langs[0]|] == '\n'
    ensures TagLength(t, langs) == |langs[0]| + 1
  {
  }

  lemma TagSkips(t: string, langs: seq<string>)
    requires langs != [] && |langs[0]| > 0 && t != [] && t[0] != langs[0][0]
    ensures TagLength(t, langs) == TagLength(t, langs[1..])
  {
    if |t| >= |langs[0]| {
      assert t[..|langs[0]|][0] == t[0];
    }
  }

  /** An opening fence, a body without backticks and a closing fence leave exactly the body. */
  lemma FenceThenPlain(open: string, body: string, langs: seq<string>)
    requires '`' !in body
    requires FenceLength(open + (body + "```"), langs) == |open|
    ensures RemoveFences(open + body + "```", langs) == body
  {
    var close := body + "```";
    var s := open + close;
    assert open + body + "```" == s;
    assert s[|open|..] == close;
    RemoveFencesKeepsPlainPrefix(body, "```", langs);
    assert FenceLength("```", langs) == 3;
    assert RemoveFences("```", langs) == RemoveFences("", langs);
    assert body + "" == body;
  }

  // ---------------------------------------------------------------------------
  // Classifying the reply

  /**
   * The raw reply text, or the error the call throws: the request's own failure, an
   * unreadable body, the rate-limit message for status 429, the server's message, the
   * default message, or the missing-text message.
   */
  function ReplyText(reply: Reply, rateLimitMessage: string): (r: Result<string>)
    ensures r.Success? ==> reply.Answered? && reply.ok && reply.body.Body? && r.value == reply.body.text != ""
    ensures reply.Unreachable? ==> r == Failure(reply.reason)
    ensures reply.Answered? && reply.body.Unreadable? ==> r == Failure(reply.body.reason)
  {
    match reply
    case Unreachable(reason) => Failure(reason)
    case Answered(status, ok, body) =>
      match body
      case Unreadable(reason) => Failure(reason)
      case Body(message, text) =>
        if !ok then
          if status == 429 then Failure(rateLimitMessage)
          else Failure(if message != "" then message else DefaultErrorMessage)
        else if text == "" then Failure(NoResponseMessage)
        else Success(text)
  }

  /**
   * A readable reply succeeds exactly when it is `ok` with text; a failed one reports the
   * rate limit for 429 whatever the server said, else the server's message, else the default.
   */
  lemma ReplyClassification(status: int, ok: bool, message: string, text: string, rateLimitMessage: string)
    ensures var r := ReplyText(Answered(status, ok, Body(message, text)), rateLimitMessage);
      && (r.Success? <==> ok && text != "")
      && (r.Success? ==> r.value == text)
      && (ok && text == "" ==> r == Failure(NoResponseMessage))
      && (!ok && status == 429 ==> r == Failure(rateLimitMessage))
      && (!ok && status != 429 && message != "" ==> r == Failure(message))
      && (!ok && status != 429 && message == "" ==> r == Failure(DefaultErrorMessage))
  {
  }

  /** `fixJsonWithGemini`. */
  function FixJsonWithGemini(content: string, preferred: string, listing: ListResponse, reply: Reply): (x: Exchange)
    ensures StartsWith(x.model, ModelsPrefix)
    ensures preferred != "" && preferred != AutoModel ==> x.model == CleanModelName(preferred)
    ensures preferred == "" || preferred == AutoModel ==> x.model == CleanModelName(BestModel(listing))
    ensures x.prompt == FixPromptHead + content
    ensures x.outcome.Success? <==> ReplyText(reply, FixRateLimitMessage).Success?
    ensures x.outcome.Success? ==> x.outcome.value == CleanFixReply(ReplyText(reply, FixRateLimitMessage).value)
    ensures x.outcome.Failure? ==> x.outcome == ReplyText(reply, FixRateLimitMessage)
  {
    var model := CleanModelName(ResolveModel(preferred, listing));
    var outcome := match ReplyText(reply, FixRateLimitMessage)
      case Success(text) => Success(CleanFixReply(text))
      case Failure(e) => Failure(e);
    Exchange(model, FixPromptHead + content, outcome)
  }

  /** The prompt of the shared helper: system prompt, a blank line, a `JSON:` line, the content. */
  function GenericPrompt(systemPrompt: string, content: string): (r: string)
    ensures |r| == |systemPrompt| + 8 + |content|
    ensures r[..|systemPrompt|] == systemPrompt
    ensures r[|systemPrompt|..|systemPrompt| + 8] == "\n\nJSON:\n"
    ensures r[|systemPrompt| + 8..] == content
  {
    systemPrompt + "\n\nJSON:\n" + content
  }

  /** `callGemini`, shared by schema generation and explanation. */
  function CallGemini(content: string, preferred: string, systemPrompt: string, listing: ListResponse, reply: Reply): (x: Exchange)
    ensures StartsWith(x.model, ModelsPrefix)
    ensures preferred != "" && preferred != AutoModel ==> x.model == CleanModelName(preferred)
    ensures preferred == "" || preferred == AutoModel ==> x.model == CleanModelName(BestModel(listing))
    ensures x.prompt == GenericPrompt(systemPrompt, content)
    ensures x.outcome.Success? <==> ReplyText(reply, RateLimitMessage).Success?
    ensures x.outcome.Success? ==> x.outcome.value == CleanReply(ReplyText(reply, RateLimitMessage).value)
    ensures x.outcome.Failure? ==> x.outcome == ReplyText(reply, RateLimitMessage)
  {
    var model := CleanModelName(ResolveModel(preferred, listing));
    var outcome := match ReplyText(reply, RateLimitMessage)
      case Success(text) => Success(CleanReply(text))
      case Failure(e) => Failure(e);
    Exchange(model, GenericPrompt(systemPrompt, content), outcome)
  }

  /** `generateSchema`: the shared call with the TypeScript-interface system prompt. */
  function GenerateSchema(content: string, preferred: string, listing: ListResponse, reply: Reply): (x: Exchange)
    ensures StartsWith(x.prompt, SchemaSystemPrompt) && EndsWith(x.prompt, content)
    ensures x.prompt == GenericPrompt(SchemaSystemPrompt, content)
    ensures preferred != "" && preferred != AutoModel ==> x.model == CleanModelName(preferred)
    ensures preferred == "" || preferred == AutoModel ==> x.model == CleanModelName(BestModel(listing))
    ensures x.outcome.Success? <==> ReplyText(reply, RateLimitMessage).Success?
    ensures x.outcome.Success? ==> x.outcome.value == CleanReply(ReplyText(reply, RateLimitMessage).value)
    ensures x.outcome.Failure? ==> x.outcome == ReplyText(reply, RateLimitMessage)
  {
    CallGemini(content, preferred, SchemaSystemPrompt, listing, reply)
  }

  /** `explainJson`: the shared call with the plain-explanation system prompt. */
  function ExplainJson(content: string, preferred: string, listing: ListResponse, reply: Reply): (x: Exchange)
    ensures StartsWith(x.prompt, ExplainSystemPrompt) && EndsWith(x.prompt, content)
    ensures x.prompt == GenericPrompt(ExplainSystemPrompt, content)
    ensures preferred != "" && preferred != AutoModel ==> x.model == CleanModelName(preferred)
    ensures preferred == "" || preferred == AutoModel ==> x.model == CleanModelName(BestModel(listing))
    ensures x.outcome.Success? <==> ReplyText(reply, RateLimitMessage).Success?
    ensures x.outcome.Success? ==> x.outcome.value == CleanReply(ReplyText(reply, RateLimitMessage).value)
    ensures x.outcome.Failure? ==> x.outcome == ReplyText(reply, RateLimitMessage)
  {
    CallGemini(content, preferred, ExplainSystemPrompt, listing, reply)
  }
}
