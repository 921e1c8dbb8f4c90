/** The summarisation chain of services/ai_services.py: a primary call to the
    Responses endpoint whose reply is searched for text in layers, one
    fallback call to the chat endpoint, and the mapping of Gemini failures to
    fixed messages. The SDK calls are collaborators passed in as functions. */
module AiServices {
  import opened Wrappers
  import opened PyText

  // ---------------------------------------------------------------------------
  // Replies and requests
  // ---------------------------------------------------------------------------

  /** A content fragment of an output item; its `text` may be missing. */
  datatype Fragment = Fragment(text: Option<string>)

  /** An output item: its own optional `text`, then its content fragments (a
      missing `content` is the empty sequence, which the scan treats alike). */
  datatype OutputItem = OutputItem(text: Option<string>, content: seq<Fragment>)

  /** A Responses reply: the optional consolidated `output_text`, and the
      `output` items. */
  datatype Reply = Reply(outputText: Option<string>, output: seq<OutputItem>)

  /** The two kinds of outbound call the chain makes. */
  datatype Request =
    | ResponsesRequest(model: string, input: string, maxOutputTokens: nat)
    | ChatRequest(model: string, input: string, temperature: real)

  const PrimaryModel := "gpt-5-mini"
  const SecondaryModel := "gpt-4o-mini"
  const MaxOutputTokens: nat := 256
  const ChatTemperature: real := 0.3
  const ArticleCharLimit: nat := 6000
  const PromptHeader := "Article:\n"

  /** The user prompt: the header, then at most the first 6000 characters of
      the article. */
  function UserPrompt(text: string): (p: string)
    ensures |p| == |PromptHeader| + Min(|text|, ArticleCharLimit)
    ensures p[..|PromptHeader|] == PromptHeader && p[|PromptHeader|..] <= text
  {
    PromptHeader + text[..Min(|text|, ArticleCharLimit)]
  }

  /** The prompt is the header followed by a prefix of the article that stops
      only at the 6000-character limit, so articles that agree on their first
      6000 characters are sent identically. */
  lemma UserPromptTruncates(text: string, other: string)
    ensures var p := UserPrompt(text);
            && |p| == |PromptHeader| + Min(|text|, ArticleCharLimit)
            && p[..|PromptHeader|] == PromptHeader
            && p[|PromptHeader|..] <= text
    ensures |text| <= ArticleCharLimit ==> UserPrompt(text) == PromptHeader + text
    ensures |text| >= ArticleCharLimit && |other| >= ArticleCharLimit
            && text[..ArticleCharLimit] == other[..ArticleCharLimit]
            ==> UserPrompt(text) == UserPrompt(other)
  {
    assert text[..|text|] == text;
    var p := UserPrompt(text);
    assert p[|PromptHeader|..] == text[..Min(|text|, ArticleCharLimit)];
  }

  // ---------------------------------------------------------------------------
  // Layered text extraction
  // ---------------------------------------------------------------------------

  /** Python truthiness of an optional string: present and not empty. */
  predicate Truthy(o: Option<string>)
  {
    o.Some? && o.value != ""
  }

  /** No candidate is truthy. */
  predicate NoneTruthy(cs: seq<Option<string>>)
  {
    forall j :: 0 <= j < |cs| ==> !Truthy(cs[j])
  }

  /** The texts one output item offers, in scan order: its own, then its
      fragments'. */
  function ItemCandidates(item: OutputItem): seq<Option<string>>
  {
    [item.text] + seq(|item.content|, j requires 0 <= j < |item.content| => item.content[j].text)
  }

  /** All texts the output offers, in scan order. */
  function Candidates(items: seq<OutputItem>): seq<Option<string>>
  {
    if items == [] then [] else Candidates(items[..|items| - 1]) + ItemCandidates(items[|items| - 1])
  }

  /** The position of the first truthy candidate, or `|cs|` if there is none. */
  function FirstTruthy(cs: seq<Option<string>>): (i: nat)
    ensures i <= |cs|
    ensures forall j :: 0 <= j < i ==> !Truthy(cs[j])
    ensures i < |cs| ==> Truthy(cs[i])
  {
    if cs == [] then 0
    else if Truthy(cs[0]) then 0
    else 1 + FirstTruthy(cs[1..])
  }

  /** What the primary reply yields: a truthy `output_text`, stripped;
      otherwise the first truthy text in scan order, stripped; never a
      concatenation. */
  function ExtractedText(reply: Reply): (r: Option<string>)
    ensures r.Some? <==> Truthy(reply.outputText) || !NoneTruthy(Candidates(reply.output))
    ensures Truthy(reply.outputText) ==> r == Some(Strip(reply.outputText.value))
  {
    if Truthy(reply.outputText) then Some(Strip(reply.outputText.value))
    else
      var cs := Candidates(reply.output);
      var i := FirstTruthy(cs);
      if i < |cs| then Some(Strip(cs[i].value)) else None
  }

  /** Whatever is extracted has been stripped. */
  lemma ExtractedTextIsStripped(reply: Reply)
    requires ExtractedText(reply).Some?
    ensures IsStripped(ExtractedText(reply).value)
  {
    if Truthy(reply.outputText) {
      StripCutsOnlyWhitespace(reply.outputText.value);
    } else {
      var cs := Candidates(reply.output);
      StripCutsOnlyWhitespace(cs[FirstTruthy(cs)].value);
    }
  }

  lemma {:induction false} CandidatesAppend(a: seq<OutputItem>, b: seq<OutputItem>)
    ensures Candidates(a + b) == Candidates(a) + Candidates(b)
    decreases |b|
  {
    if b == [] {
      assert a + b == a;
    } else {
      var init, last := b[..|b| - 1], b[|b| - 1];
      assert (a + b)[..|a + b| - 1] == a + init;
      assert (a + b)[|a + b| - 1] == last;
      CandidatesAppend(a, init);
      calc {
        Candidates(a + b);
        Candidates(a + init) + ItemCandidates(last);
        (Candidates(a) + Candidates(init)) + ItemCandidates(last);
        Candidates(a) + (Candidates(init) + ItemCandidates(last));
        Candidates(a) + Candidates(b);
      }
    }
  }

  /** The candidates of item `i` follow those of the items before it. */
  lemma CandidatesStep(items: seq<OutputItem>, i: nat)
    requires i < |items|
    ensures Candidates(items[..i + 1]) == Candidates(items[..i]) + ItemCandidates(items[i])
  {
    var front := items[..i + 1];
    assert front[..|front| - 1] == items[..i];
  }

  lemma CandidatesSplit(items: seq<OutputItem>, i: nat)
    requires i <= |items|
    ensures Candidates(items) == Candidates(items[..i]) + Candidates(items[i..])
  {
    assert items == items[..i] + items[i..];
    CandidatesAppend(items[..i], items[i..]);
  }

  lemma CandidatesOfItem(items: seq<OutputItem>, i: nat)
    requires i < |items|
    ensures Candidates(items[..i + 1]) == Candidates(items[..i]) + ItemCandidates(items[i])
    ensures Candidates(items) == Candidates(items[..i + 1]) + Candidates(items[i + 1..])
  {
    CandidatesStep(items, i);
    CandidatesSplit(items, i + 1);
  }

  /** An item offers its own text first, then one text per fragment. */
  lemma ItemCandidatesLayout(item: OutputItem)
    ensures |ItemCandidates(item)| == 1 + |item.content|
    ensures ItemCandidates(item)[0] == item.text
    ensures forall k :: 0 <= k < |item.content| ==> ItemCandidates(item)[1 + k] == item.content[k].text
  {
  }

  /** A truthy candidate preceded only by falsy ones is the first truthy one. */
  lemma FirstTruthyAt(cs: seq<Option<string>>, k: nat)
    requires k < |cs| && Truthy(cs[k])
    requires forall j :: 0 <= j < k ==> !Truthy(cs[j])
    ensures FirstTruthy(cs) == k
  {
  }

  /** When `output_text` is not truthy, a truthy candidate preceded only by
      falsy ones is what the reply yields. */
  lemma ExtractedAt(reply: Reply, cs: seq<Option<string>>, k: nat)
    requires !Truthy(reply.outputText) && cs == Candidates(reply.output)
    requires k < |cs| && Truthy(cs[k])
    requires forall j :: 0 <= j < k ==> !Truthy(cs[j])
    ensures ExtractedText(reply) == Some(Strip(cs[k].value))
  {
    FirstTruthyAt(cs, k);
  }

  /** When neither `output_text` nor any candidate is truthy, the reply yields
      nothing. */
  lemma NothingExtracted(reply: Reply, cs: seq<Option<string>>)
    requires !Truthy(reply.outputText) && cs == Candidates(reply.output)
    requires forall j :: 0 <= j < |cs| ==> !Truthy(cs[j])
    ensures ExtractedText(reply) == None
  {
  }

  /** The first truthy text among `cs`, if any. */
  function FirstText(cs: seq<Option<string>>): (t: Option<string>)
    ensures t.Some? ==> Truthy(t) && t in cs
  {
    var i := FirstTruthy(cs);
    if i < |cs| then cs[i] else None
  }

  /** A truthy text found in item `i`, after nothing truthy in the items
      before it, is what the reply yields. */
  lemma ItemFound(reply: Reply, cs: seq<Option<string>>, i: nat)
    requires !Truthy(reply.outputText) && cs == Candidates(reply.output) && i < |reply.output|
    requires |Candidates(reply.output[..i])| <= |cs|
    requires forall j :: 0 <= j < |Candidates(reply.output[..i])| ==> !Truthy(cs[j])
    requires FirstText(ItemCandidates(reply.output[i])).Some?
    ensures ExtractedText(reply) == Some(Strip(FirstText(ItemCandidates(reply.output[i])).value))
  {
    var pos := |Candidates(reply.output[..i])|;
    var ic := ItemCandidates(reply.output[i]);
    var k := FirstTruthy(ic);
    CandidatesOfItem(reply.output, i);
    forall j | 0 <= j < pos + k ensures !Truthy(cs[j]) {
      if j >= pos {
        assert cs[pos + (j - pos)] == ic[j - pos];
      }
    }
    assert cs[pos + k] == ic[k];
    ExtractedAt(reply, cs, pos + k);
  }

  /** An item with nothing truthy extends the falsy prefix by all its
      candidates. */
  lemma ItemSkipped(reply: Reply, cs: seq<Option<string>>, i: nat)
    requires cs == Candidates(reply.output) && i < |reply.output|
    requires |Candidates(reply.output[..i])| <= |cs|
    requires forall j :: 0 <= j < |Candidates(reply.output[..i])| ==> !Truthy(cs[j])
    requires FirstText(ItemCandidates(reply.output[i])).None?
    ensures |Candidates(reply.output[..i + 1])| == |Candidates(reply.output[..i])| + |ItemCandidates(reply.output[i])|
    ensures |Candidates(reply.output[..i + 1])| <= |cs|
    ensures forall j :: 0 <= j < |Candidates(reply.output[..i + 1])| ==> !Truthy(cs[j])
  {
    var pos := |Candidates(reply.output[..i])|;
    var ic := ItemCandidates(reply.output[i]);
    CandidatesOfItem(reply.output, i);
    forall j | 0 <= j < pos + |ic| ensures !Truthy(cs[j]) {
      if j >= pos {
        assert cs[pos + (j - pos)] == ic[j - pos];
      }
    }
  }

  /** The inner scan of one output item: its own text, then its fragments',
      stopping at the first truthy one. */
  method ScanItem(item: OutputItem) returns (t: Option<string>)
    ensures t == FirstText(ItemCandidates(item))
  {
    ghost var ic := ItemCandidates(item);
    ItemCandidatesLayout(item);
    if Truthy(item.text) {
      return item.text;
    }
    var k := 0;
    while k < |item.content|
      invariant 0 <= k <= |item.content|
      invariant forall j :: 0 <= j < 1 + k ==> !Truthy(ic[j])
    {
      if Truthy(item.content[k].text) {
        FirstTruthyAt(ic, 1 + k);
        return item.content[k].text;
      }
      k := k + 1;
    }
    return None;
  }

  /** The scan of `get_ai_summary`: `output_text` first, then item by item its
      own text and its fragments, stopping at the first truthy one. */
  method ExtractText(reply: Reply) returns (r: Option<string>)
    ensures r == ExtractedText(reply)
  {
    if Truthy(reply.outputText) {
      return Some(Strip(reply.outputText.value));
    }
    ghost var cs := Candidates(reply.output);
    var i := 0;
    while i < |reply.output|
      invariant 0 <= i <= |reply.output|
      invariant |Candidates(reply.output[..i])| <= |cs|
      invariant forall j :: 0 <= j < |Candidates(reply.output[..i])| ==> !Truthy(cs[j])
    {
      var outputText := ScanItem(reply.output[i]);
      if outputText.Some? {
        ItemFound(reply, cs, i);
        return Some(Strip(outputText.value));
      }
      ItemSkipped(reply, cs, i);
      i := i + 1;
    }
    assert reply.output[..|reply.output|] == reply.output;
    NothingExtracted(reply, cs);
    return None;
  }

  // ---------------------------------------------------------------------------
  // `get_ai_summary`
  // ---------------------------------------------------------------------------

  function PrimaryRequest(text: string): Request
  {
    ResponsesRequest(PrimaryModel, UserPrompt(text), MaxOutputTokens)
  }

  function SecondaryRequest(text: string): Request
  {
    ChatRequest(SecondaryModel, UserPrompt(text), ChatTemperature)
  }

  /** `get_ai_summary`: the summary and the outbound calls, in order.
      `responses` stands for the Responses endpoint (raising or replying),
      `chat` for the chat endpoint (raising, or returning the first choice's
      message content, which may itself be None). */
  method GetAiSummary(text: Option<string>, clientConfigured: bool,
                      responses: Request -> CallResult<Reply>,
                      chat: Request -> CallResult<Option<string>>)
    returns (summary: Option<string>, calls: seq<Request>)
    ensures text.None? || text.value == "" || !clientConfigured ==> summary == None && calls == []
    ensures |calls| <= 2
    ensures forall c :: c in calls ==> c.input == UserPrompt(text.value)
    ensures calls != [] ==> calls[0] == PrimaryRequest(text.value)
    ensures |calls| == 1 ==> responses(calls[0]).Ok? && summary == ExtractedText(responses(calls[0]).value)
                             && summary.Some?
    ensures |calls| == 2 ==>
              && calls[1] == SecondaryRequest(text.value)
              && (responses(calls[0]).Err? || ExtractedText(responses(calls[0]).value).None?)
              && summary == (if chat(calls[1]).Ok? then chat(calls[1]).value else None)
    ensures text.Some? && text.value != "" && clientConfigured ==> calls != []
  {
    if text.None? || text.value == "" || !clientConfigured {
      return None, [];
    }
    var primary := PrimaryRequest(text.value);
    calls := [primary];
    var response := responses(primary);
    if response.Ok? {
      var extracted := ExtractText(response.value);
      if extracted.Some? {
        return extracted, calls;
      }
    }
    var secondary := SecondaryRequest(text.value);
    calls := calls + [secondary];
    var completion := chat(secondary);
    match completion {
      case Ok(content) => summary := content;
      case Err(_) => summary := None;
    }
  }

  // ---------------------------------------------------------------------------
  // `get_gemini_summary`
  // ---------------------------------------------------------------------------

  const BusyMessage := "AI summary failed: The API is busy. Please try again later."
  const UnavailableMessage := "AI summary failed: The video might be private, deleted, or otherwise unavailable."
  const GenericFailureMessage := "AI summary failed. See console logs for details."

  /** The message a Gemini failure turns into, from the text of the error. */
  function GeminiFailureMessage(error: string): (m: string)
    ensures m in {BusyMessage, UnavailableMessage, GenericFailureMessage}
    ensures m == BusyMessage <==> Contains(error, "RESOURCE_EXHAUSTED")
    ensures m == UnavailableMessage <==> !Contains(error, "RESOURCE_EXHAUSTED") && Contains(error, "400")
  {
    assert |GenericFailureMessage| < |BusyMessage| < |UnavailableMessage|;
    if Contains(error, "RESOURCE_EXHAUSTED") then BusyMessage
    else if Contains(error, "400") then UnavailableMessage
    else GenericFailureMessage
  }

  /** `get_gemini_summary`: `generate` stands for `generate_content` followed
      by reading `response.text`, either of which may raise. */
  function GetGeminiSummary(videoUrl: Option<string>, modelConfigured: bool,
                            generate: string -> CallResult<string>): (r: Option<string>)
    ensures videoUrl.None? || videoUrl.value == "" || !modelConfigured ==> r == None
    ensures videoUrl.Some? && videoUrl.value != "" && modelConfigured ==> r.Some?
    ensures videoUrl.Some? && videoUrl.value != "" && modelConfigured && generate(videoUrl.value).Ok? ==>
              r == Some(Strip(generate(videoUrl.value).value))
    ensures videoUrl.Some? && videoUrl.value != "" && modelConfigured && generate(videoUrl.value).Err? ==>
              r == Some(GeminiFailureMessage(generate(videoUrl.value).message))
  {
    if videoUrl.None? || videoUrl.value == "" || !modelConfigured then None
    else
      match generate(videoUrl.value)
      case Ok(t) => Some(Strip(t))
      case Err(e) => Some(GeminiFailureMessage(e))
  }

  /** "RESOURCE_EXHAUSTED" wins over "400"; "400" alone means unavailable;
      anything else is the generic message. */
  lemma GeminiFailurePrecedence(error: string)
    ensures Contains(error, "RESOURCE_EXHAUSTED") ==> GeminiFailureMessage(error) == BusyMessage
    ensures !Contains(error, "RESOURCE_EXHAUSTED") && Contains(error, "400") ==>
              GeminiFailureMessage(error) == UnavailableMessage
    ensures !Contains(error, "RESOURCE_EXHAUSTED") && !Contains(error, "400") ==>
              GeminiFailureMessage(error) == GenericFailureMessage
    ensures BusyMessage != UnavailableMessage && UnavailableMessage != GenericFailureMessage && GenericFailureMessage != BusyMessage
  {
    assert |GenericFailureMessage| < |BusyMessage| < |UnavailableMessage|;
  }

  lemma QuotaErrorText(error: string)
    requires error == "429 RESOURCE_EXHAUSTED: quota 400 exceeded"
    ensures GeminiFailureMessage(error) == BusyMessage
  {
    assert forall j :: 0 <= j < 18 ==> error[4 + j] == "RESOURCE_EXHAUSTED"[j];
    assert error[4..22] == "RESOURCE_EXHAUSTED";
    assert OccursAt(error, "RESOURCE_EXHAUSTED", 4);
  }

  lemma BadRequestErrorText(error: string)
    requires error == "400 Bad Request"
    ensures GeminiFailureMessage(error) == UnavailableMessage
  {
    assert error[0..3] == "400";
    assert OccursAt(error, "400", 0);
    assert |error| < |"RESOURCE_EXHAUSTED"|;
  }

  lemma ServerErrorText(error: string)
    requires error == "500 Internal"
    ensures GeminiFailureMessage(error) == GenericFailureMessage
  {
    forall i: nat | i <= |error| - 3 ensures !OccursAt(error, "400", i) {
      assert error[i..i + 3][0] == error[i];
    }
  }
}
