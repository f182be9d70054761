/**
 * The DeepSeek client: its configuration, the prompt it sends for a document,
 * and how it turns the model's reply into a list of question/answer pairs.
 *
 * The chat-completion call is not modelled; its outcome is an input
 * (`ChatOutcome`), and `json.loads` is the parameter `loads`.
 */
module DeepSeek {
  import opened Wrappers
  import opened Json
  import Decimal
  import ArraySearch
  import Sequences

  const ApiKeyVariable: string := "DEEPSEEK_API_KEY"
  const ApiUrlVariable: string := "DEEPSEEK_API_URL"
  const DefaultApiBase: string := "https://api.deepseek.com/v1"

  /** Only this many characters of a document reach the prompt. */
  const ContentLimit: nat := 10000
  /** `num_pairs` when the caller gives none. */
  const DefaultNumPairs: int := 20

  const ModelName: string := "deepseek-chat"
  const Temperature: real := 0.7
  const MaxTokens: nat := 4000

  /** The prompt template, split around its two placeholders. */
  const PromptLead: string := "根据以下内容，生成"
  const PromptCountSuffix: string := "个" + "中文问答对，生成的问答对要尽可能覆盖内容，深刻理解内容。返回成JSON格式的数组，每个问答对包含'question'和'answer'字段。\n            \n内容:\n"
  const PromptTail: string := "\n\n请仅返回JSON数组，不要包含任何其他文本或解释。格式示例:\n[\n  {\"question\": \"问题1\", \"answer\": \"答案1\"},\n  {\"question\": \"问题2\", \"answer\": \"答案2\"}\n]"

  datatype ClientError = ValueError(message: string)

  /** One message of a chat-completion request. */
  datatype ChatMessage = ChatMessage(role: string, content: string)

  /** The arguments of `client.chat.completions.create`. */
  datatype ChatRequest = ChatRequest(model: string, messages: seq<ChatMessage>, temperature: real, maxTokens: nat)

  /** What the chat call gives back: an exception, or a reply whose
      `choices[0].message.content` may be `None`. */
  datatype ChatOutcome = CallRaised | Replied(content: Option<string>)

  /** What one `generate_qa_pairs` call sends and returns. */
  datatype Generation = Generation(request: ChatRequest, pairs: Json)

  /** A configured client: the key and base URL the OpenAI SDK is pointed at. */
  datatype DeepSeekClient = DeepSeekClient(apiKey: string, apiBase: string)
  {
    /**
     * `generate_qa_pairs(content, num_pairs)`: sends one request for
     * `Prompt(content, numPairs)`; `reply` is what the service answers.
     */
    function GenerateQaPairs(content: string, reply: ChatOutcome, loads: string -> Loaded,
                             numPairs: int := DefaultNumPairs): (r: Generation)
      ensures r.request == RequestFor(Prompt(content, numPairs))
      ensures Len(r.pairs).Some?
    {
      Generation(RequestFor(Prompt(content, numPairs)), ParseReply(reply, loads))
    }
  }

  /**
   * `DeepSeekClient()`: reads the key and the base URL from the environment
   * `env`; a missing or empty key raises ValueError.
   */
  function NewDeepSeekClient(env: map<string, string>): (r: Result<DeepSeekClient, ClientError>)
    ensures r.Failure? <==> ApiKeyVariable !in env || env[ApiKeyVariable] == ""
    ensures r.Success? ==> r.value.apiKey == env[ApiKeyVariable] && r.value.apiKey != ""
    ensures r.Success? ==>
      r.value.apiBase == if ApiUrlVariable in env then env[ApiUrlVariable] else DefaultApiBase
  {
    var apiKey := if ApiKeyVariable in env then Some(env[ApiKeyVariable]) else None;
    var apiBase := if ApiUrlVariable in env then env[ApiUrlVariable] else DefaultApiBase;
    if apiKey.None? || apiKey.value == "" then Failure(ValueError("请设置DEEPSEEK_API_KEY环境变量"))
    else Success(DeepSeekClient(apiKey.value, apiBase))
  }

  /** `content[:10000]`. */
  function Truncate(content: string): (t: string)
    ensures |t| == if |content| <= ContentLimit then |content| else ContentLimit
    ensures t == content[..|t|]
    ensures |content| <= ContentLimit ==> t == content
  {
    if |content| <= ContentLimit then content else content[..ContentLimit]
  }

  /** The f-string prompt for `content` and `numPairs`. */
  function Prompt(content: string, numPairs: int): string
  {
    PromptLead + Decimal.IntToString(numPairs) + PromptCountSuffix + Truncate(content) + PromptTail
  }

  /** The one user-role request sent for a prompt. */
  function RequestFor(prompt: string): ChatRequest
  {
    ChatRequest(ModelName, [ChatMessage("user", prompt)], Temperature, MaxTokens)
  }

  /** What a successful `json.loads` leads to: the value itself, unless the
      `len(qa_pairs)` that logs it raises TypeError, which ends in `[]`. */
  function Returned(l: Loaded): (r: Json)
    ensures Len(r).Some?
    ensures l.Parsed? && Len(l.value).Some? ==> r == l.value
    ensures !l.Parsed? || Len(l.value).None? ==> r == EmptyList
  {
    if l.Parsed? && Len(l.value).Some? then l.value else EmptyList
  }

  /**
   * The reply cascade: parse the whole reply; on a JSON decode error parse
   * the substring `re.search` finds instead; every other failure, and every
   * exception, ends in `[]`.
   */
  function ParseReply(reply: ChatOutcome, loads: string -> Loaded): (r: Json)
    ensures Len(r).Some?
    ensures reply.CallRaised? || reply.content.None? ==> r == EmptyList
    ensures reply.Replied? && reply.content.Some? && !loads(reply.content.value).DecodeError? ==>
      r == Returned(loads(reply.content.value))
  {
    match reply
    case CallRaised => EmptyList
    case Replied(None) => EmptyList
    case Replied(Some(text)) =>
      if !loads(text).DecodeError? then Returned(loads(text))
      else
        match ArraySearch.Search(text)
        case None => EmptyList
        case Some(span) => Returned(loads(text[span.start..span.end]))
  }

  /** A reply that parses as a whole is returned as parsed, with no filtering
      of its entries. */
  lemma DirectParseReturnedAsIs(text: string, loads: string -> Loaded)
    requires loads(text).Parsed? && Len(loads(text).value).Some?
    ensures ParseReply(Replied(Some(text)), loads) == loads(text).value
  {
  }

  /** After a decode error, the result is exactly the parse of the span
      `re.search` reports: leftmost `[`-whitespace-`{`, last `}`-whitespace-`]`. */
  lemma RepairParsesSearchResult(text: string, loads: string -> Loaded, i: nat, e: nat)
    requires loads(text).DecodeError?
    requires ArraySearch.IsSearchResult(text, i, e)
    ensures i < e <= |text|
    ensures ParseReply(Replied(Some(text)), loads) == Returned(loads(text[i..e]))
  {
    ArraySearch.SearchResultUnique(text, i, e);
  }

  /** After a decode error, a reply in which the pattern matches nowhere gives `[]`. */
  lemma RepairWithoutMatchIsEmpty(text: string, loads: string -> Loaded)
    requires loads(text).DecodeError?
    requires forall i: nat, k: nat, j: nat, e: nat :: !ArraySearch.IsMatch(text, i, k, j, e)
    ensures ParseReply(Replied(Some(text)), loads) == EmptyList
  {
    ArraySearch.SearchComplete(text);
  }

  /** Anything other than `[]` that a repaired reply yields was parsed from a
      contiguous substring of the reply that `re.search` reports. */
  lemma RepairedResultFromSubstring(text: string, loads: string -> Loaded)
    requires loads(text).DecodeError?
    requires ParseReply(Replied(Some(text)), loads) != EmptyList
    ensures exists i: nat, e: nat :: (i < e <= |text| && ArraySearch.IsSearchResult(text, i, e) &&
      loads(text[i..e]) == Parsed(ParseReply(Replied(Some(text)), loads)))
  {
    var span := ArraySearch.Search(text).value;
    ArraySearch.SearchSound(text);
    assert loads(text[span.start..span.end]) == Parsed(ParseReply(Replied(Some(text)), loads));
  }

  /** The prompt embeds `content[:10000]` between the fixed instruction and the
      fixed output contract. */
  lemma PromptEmbedsTruncatedContent(content: string, numPairs: int)
    ensures var p := Prompt(content, numPairs);
      var start := |PromptLead| + |Decimal.IntToString(numPairs)| + |PromptCountSuffix|;
      start + |PromptTail| <= |p| &&
      p[..start] == PromptLead + Decimal.IntToString(numPairs) + PromptCountSuffix &&
      p[|p| - |PromptTail|..] == PromptTail &&
      p[start..|p| - |PromptTail|] == Truncate(content)
  {
    Sequences.FiveParts(PromptLead, Decimal.IntToString(numPairs), PromptCountSuffix, Truncate(content), PromptTail);
  }

  /** The prompt states the requested pair count as a decimal numeral that reads
      back as that count. */
  lemma PromptStatesPairCount(content: string, numPairs: int)
    ensures var p := Prompt(content, numPairs);
      var count := Decimal.IntToString(numPairs);
      |PromptLead| + |count| <= |p| &&
      p[|PromptLead|..|PromptLead| + |count|] == count &&
      Decimal.ParseInt(count) == numPairs
  {
    Sequences.FiveParts(PromptLead, Decimal.IntToString(numPairs), PromptCountSuffix, Truncate(content), PromptTail);
  }

  /** Without an explicit count, the prompt asks for 20 pairs. */
  lemma DefaultRequestsTwentyPairs(client: DeepSeekClient, content: string, reply: ChatOutcome,
                                   loads: string -> Loaded)
    ensures client.GenerateQaPairs(content, reply, loads).request.messages ==
      [ChatMessage("user", PromptLead + "20" + PromptCountSuffix + Truncate(content) + PromptTail)]
  {
    assert Decimal.IntToString(20) == "20";
  }

  /** A numeral followed by a non-numeral character is determined by the text. */
  lemma {:induction false} NumeralPrefixUnique(d1: string, rest1: string, d2: string, rest2: string)
    requires d1 + rest1 == d2 + rest2
    requires forall i :: 0 <= i < |d1| ==> Decimal.IsDigit(d1[i]) || d1[i] == '-'
    requires forall i :: 0 <= i < |d2| ==> Decimal.IsDigit(d2[i]) || d2[i] == '-'
    requires rest1 != "" && !Decimal.IsDigit(rest1[0]) && rest1[0] != '-'
    requires rest2 != "" && !Decimal.IsDigit(rest2[0]) && rest2[0] != '-'
    ensures d1 == d2 && rest1 == rest2
  {
    assert (d1 + rest1)[|d1|] == rest1[0] && (d2 + rest2)[|d2|] == rest2[0];
    assert forall p :: 0 <= p < |d1| ==> (d1 + rest1)[p] == d1[p];
    assert forall p :: 0 <= p < |d2| ==> (d2 + rest2)[p] == d2[p];
    assert |d1| == |d2|;
    assert d1 == (d1 + rest1)[..|d1|];
    assert d2 == (d2 + rest2)[..|d2|];
    assert rest1 == (d1 + rest1)[|d1|..];
    assert rest2 == (d2 + rest2)[|d2|..];
  }

  /** Equal texts with a common prefix and suffix have equal middles. */
  lemma CancelAround(a: string, x: string, y: string, b: string)
    requires a + x + b == a + y + b
    ensures x == y
  {
    var t := a + x + b;
    assert x == t[|a|..|t| - |b|];
    assert y == (a + y + b)[|a|..|t| - |b|];
  }

  /** A template of the prompt's shape, filled with two numerals whose next
      character is not part of a numeral, determines both fillings. */
  lemma TemplateInjective(lead: string, suffix: string, tail: string,
                          d1: string, t1: string, d2: string, t2: string)
    requires lead + d1 + suffix + t1 + tail == lead + d2 + suffix + t2 + tail
    requires suffix != "" && !Decimal.IsDigit(suffix[0]) && suffix[0] != '-'
    requires forall i :: 0 <= i < |d1| ==> Decimal.IsDigit(d1[i]) || d1[i] == '-'
    requires forall i :: 0 <= i < |d2| ==> Decimal.IsDigit(d2[i]) || d2[i] == '-'
    ensures d1 == d2 && t1 == t2
  {
    var rest1 := suffix + t1 + tail;
    var rest2 := suffix + t2 + tail;
    assert lead + d1 + suffix + t1 + tail == lead + (d1 + rest1) + "";
    assert lead + d2 + suffix + t2 + tail == lead + (d2 + rest2) + "";
    CancelAround(lead, d1 + rest1, d2 + rest2, "");
    assert rest1[0] == suffix[0] && rest2[0] == suffix[0];
    NumeralPrefixUnique(d1, rest1, d2, rest2);
    CancelAround(suffix, t1, t2, tail);
  }

  /** Two equal prompts were built from the same count and the same first
      10000 characters: nothing else of the content reaches the service. */
  lemma PromptInjective(c1: string, n1: int, c2: string, n2: int)
    requires Prompt(c1, n1) == Prompt(c2, n2)
    ensures n1 == n2 && Truncate(c1) == Truncate(c2)
  {
    var d1, d2 := Decimal.IntToString(n1), Decimal.IntToString(n2);
    SuffixStartsWithCounter();
    NumeralCharacters(d1);
    NumeralCharacters(d2);
    TemplateInjective(PromptLead, PromptCountSuffix, PromptTail, d1, Truncate(c1), d2, Truncate(c2));
  }

  /** The text after the count starts with a character that cannot belong to a numeral. */
  lemma SuffixStartsWithCounter()
    ensures PromptCountSuffix != "" && !Decimal.IsDigit(PromptCountSuffix[0]) && PromptCountSuffix[0] != '-'
  {
    assert PromptCountSuffix[0] == '个';
  }

  /** Every character of a numeral is a digit or the minus sign. */
  lemma NumeralCharacters(d: string)
    requires d != "" && (d[0] == '-' || Decimal.IsDigit(d[0]))
    requires forall i :: 0 < i < |d| ==> Decimal.IsDigit(d[i])
    ensures forall i :: 0 <= i < |d| ==> Decimal.IsDigit(d[i]) || d[i] == '-'
  {
  }
}
