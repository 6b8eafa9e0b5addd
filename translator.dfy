/** The text-to-architecture translator: the demo answer when no
    credentials are configured, and otherwise the interpretation of the
    language model's reply, including the repair step that cuts the JSON
    object out of surrounding prose.  The HTTP call itself is not modelled:
    its outcome is the `Reply` parameter, and `json.loads` is the `parse`
    parameter, which yields `None` where Python raises a decoding error and
    otherwise the decoded value, which need not be an object. */
module Translator {
  import opened ArchitectureIr

  /** The credentials read from the environment; a variable that is unset
      is `None`. */
  datatype Config = Config(apiKey: Option<string>, endpoint: Option<string>)

  /** What the chat-completion request produced: it timed out, or it was
      answered with a status code, the body text and the first choice's
      message content. */
  datatype Reply =
    | TimedOut
    | Answered(status: int, body: string, content: string)

  /** The causes of a translation failure. */
  datatype TranslationError =
    | Timeout
    | RequestFailed(responseText: string)
    | ExtractFailed
    | Unparseable(candidate: string)

  const ApiErrorPrefix := "Error calling Azure OpenAI API: "

  /** The message of the exception raised for each cause.  The timeout's
      handler raises its own text; every other cause is raised inside the
      `try` block and re-raised by the catch-all handler with the API-error
      prefix.  A failed request's message ends with the response text. */
  function Message(e: TranslationError): (m: string)
    ensures ApiErrorPrefix <= m <==> !e.Timeout?
    ensures e.RequestFailed? ==> |e.responseText| <= |m| && m[|m| - |e.responseText|..] == e.responseText
  {
    match e
    case Timeout =>
      var text := "Azure OpenAI API request " + "timed out after 30 seconds";
      assert text[0] != ApiErrorPrefix[0];
      text
    case RequestFailed(text) => ApiErrorPrefix + "Azure OpenAI API request failed: " + text
    case ExtractFailed => ApiErrorPrefix + "Failed to extract JSON from Azure OpenAI response"
    case Unparseable(_) => ApiErrorPrefix + "JSON could not be decoded"
  }

  /** Two failed requests with the same message had the same response text. */
  lemma RequestFailedMessage(e: TranslationError, f: TranslationError)
    requires e.RequestFailed? && f.RequestFailed?
    ensures Message(e) == Message(f) ==> e == f
  {
    if Message(e) == Message(f) {
      var head := ApiErrorPrefix + "Azure OpenAI API request failed: ";
      assert Message(e)[|head|..] == e.responseText;
      assert Message(f)[|head|..] == f.responseText;
    }
  }

  /** Python's truthiness of an optional string: the falsy values are an
      unset variable and the empty string. */
  predicate IsSet(v: Option<string>): (b: bool)
    ensures b <==> v !in {None, Some("")}
  {
    v.Some? && v.value != ""
  }

  /** `not AZURE_OPENAI_API_KEY or not AZURE_OPENAI_ENDPOINT` is false:
      neither variable is unset or empty. */
  predicate Configured(cfg: Config): (b: bool)
    ensures b <==> cfg.apiKey !in {None, Some("")} && cfg.endpoint !in {None, Some("")}
  {
    IsSet(cfg.apiKey) && IsSet(cfg.endpoint)
  }

  /** The fixed architecture returned when no credentials are configured:
      two resources, one relationship from the web app to the database,
      one cluster holding both. */
  function Demo(): (a: Architecture)
    ensures LabelOf(a) == "Sample Web App Architecture"
    ensures |a.resources| == 2
    ensures ResourceNameOf(a.resources[0]) == "Web App" && ResourceTypeOf(a.resources[0]) == "Azure.WebApp"
    ensures ResourceNameOf(a.resources[1]) == "SQL Database" && ResourceTypeOf(a.resources[1]) == "Azure.SQLDatabase"
    ensures |a.relationships| == 1
    ensures a.relationships[0].source == Some("Web App") && a.relationships[0].target == Some("SQL Database")
    ensures |a.clusters| == 1
    ensures ClusterNameOf(a.clusters[0]) == "Resource Group 1"
    ensures a.clusters[0].resources == ["Web App", "SQL Database"]
  {
    Architecture(
      Some("Sample Web App Architecture"),
      [ Resource(Some("Web App"), Some("Azure.WebApp"),
                 map["location" := "East US", "sku" := "S1"]),
        Resource(Some("SQL Database"), Some("Azure.SQLDatabase"),
                 map["location" := "East US", "sku" := "S2"]) ],
      [ Relationship(Some("Web App"), Some("SQL Database"), Some("connects_to")) ],
      [ ClusterInfo(Some("Resource Group 1"), ["Web App", "SQL Database"]) ])
  }

  /** `s.find(c)`: the index of the first occurrence of `c`, or -1. */
  function Find(s: string, c: char): (i: int)
    ensures -1 <= i < |s|
    ensures i == -1 <==> c !in s
    ensures 0 <= i ==> s[i] == c && c !in s[..i]
  {
    if s == [] then -1
    else if s[0] == c then 0
    else
      var k := Find(s[1..], c);
      assert s[1..] == s[1..][..|s| - 1];
      if k < 0 then -1
      else
        assert s[..k + 1] == [s[0]] + s[1..][..k];
        k + 1
  }

  /** `s.rfind(c)`: the index of the last occurrence of `c`, or -1. */
  function RFind(s: string, c: char): (i: int)
    ensures -1 <= i < |s|
    ensures i == -1 <==> c !in s
    ensures 0 <= i ==> s[i] == c && c !in s[i + 1..]
  {
    if s == [] then -1
    else if s[|s| - 1] == c then |s| - 1
    else
      var k := RFind(s[..|s| - 1], c);
      assert s == s[..|s| - 1] + [s[|s| - 1]];
      if k >= 0 then
        assert s[k + 1..] == s[..|s| - 1][k + 1..] + [s[|s| - 1]];
        k
      else -1
  }

  /** Python's `s[start:end]` for indices within the string: empty when
      the end lies before the start. */
  function Slice(s: string, start: nat, end: nat): (r: string)
    requires start <= |s| && end <= |s|
    ensures |r| == if start <= end then end - start else 0
    ensures forall k :: 0 <= k < |r| ==> r[k] == s[start + k]
  {
    if start <= end then s[start..end] else ""
  }

  /** The repair step: the text from the first '{' to the last '}'. */
  function ExtractJson(content: string): (r: Result<string, TranslationError>)
    ensures r.Failure? <==> '{' !in content || '}' !in content
    ensures r.Failure? ==> r.error == ExtractFailed
  {
    var jsonStart := Find(content, '{');
    var jsonEnd := RFind(content, '}') + 1;
    if jsonStart >= 0 && jsonEnd > 0 then Success(Slice(content, jsonStart, jsonEnd))
    else Failure(ExtractFailed)
  }

  /** When the first '{' (at `i`) comes before the last '}' (at `j`), the
      candidate is exactly the text between them, both included. */
  lemma ExtractBetween(content: string, i: nat, j: nat)
    requires i < j < |content|
    requires content[i] == '{' && '{' !in content[..i]
    requires content[j] == '}' && '}' !in content[j + 1..]
    ensures ExtractJson(content) == Success(content[i..j + 1])
    ensures content[i..j + 1][0] == '{' && content[i..j + 1][j - i] == '}'
  {
    FirstIndex(content, '{', i);
    LastIndex(content, '}', j);
    var start, end := Find(content, '{'), RFind(content, '}') + 1;
    assert start == i && end == j + 1;
    assert Slice(content, start, end) == content[i..j + 1];
  }

  /** When the last '}' comes before the first '{', the slice is empty. */
  lemma ExtractReversed(content: string, i: nat, j: nat)
    requires j < i < |content|
    requires content[i] == '{' && '{' !in content[..i]
    requires content[j] == '}' && '}' !in content[j + 1..]
    ensures ExtractJson(content) == Success("")
  {
    FirstIndex(content, '{', i);
    LastIndex(content, '}', j);
    var start, end := Find(content, '{'), RFind(content, '}') + 1;
    assert start == i && end == j + 1;
    assert Slice(content, start, end) == "";
  }

  /** The first occurrence is what `Find` reports. */
  lemma FirstIndex(s: string, c: char, i: nat)
    requires i < |s| && s[i] == c && c !in s[..i]
    ensures Find(s, c) == i
  {
    var k := Find(s, c);
    assert k >= 0 by { assert c in s by { assert s[i] == c; } }
  }

  /** The last occurrence is what `RFind` reports. */
  lemma LastIndex(s: string, c: char, j: nat)
    requires j < |s| && s[j] == c && c !in s[j + 1..]
    ensures RFind(s, c) == j
  {
    var k := RFind(s, c);
    assert k >= 0 by { assert c in s by { assert s[j] == c; } }
  }

  /** `process_text_with_azure_openai`, given the outcome of the request
      and the JSON decoder. */
  function Translate(cfg: Config, reply: Reply, parse: string -> Option<JsonValue>)
    : (r: Result<JsonValue, TranslationError>)
    ensures !Configured(cfg) ==> r == Success(Object(Demo()))
    ensures Configured(cfg) && reply.TimedOut? ==> r == Failure(Timeout)
    ensures Configured(cfg) && reply.Answered? && reply.status != 200 ==>
      r == Failure(RequestFailed(reply.body))
    ensures Configured(cfg) && r.Success? ==>
      reply.Answered? && reply.status == 200 &&
      (parse(reply.content) == Some(r.value) ||
       (ExtractJson(reply.content).Success? && parse(ExtractJson(reply.content).value) == Some(r.value)))
    ensures Configured(cfg) && reply.Answered? && reply.status == 200 && parse(reply.content).Some? ==>
      r == Success(parse(reply.content).value)
    ensures r == Failure(ExtractFailed) <==>
      Configured(cfg) && reply.Answered? && reply.status == 200 && parse(reply.content).None? &&
      ('{' !in reply.content || '}' !in reply.content)
    ensures (Configured(cfg) && reply.Answered? && reply.status == 200 && parse(reply.content).None? &&
             ExtractJson(reply.content).Success? && parse(ExtractJson(reply.content).value).None?) ==>
      r == Failure(Unparseable(ExtractJson(reply.content).value))
    ensures r.Failure? && r.error.Unparseable? ==>
      Configured(cfg) && reply.Answered? && reply.status == 200 && parse(reply.content).None? &&
      ExtractJson(reply.content).Success? && parse(ExtractJson(reply.content).value).None?
  {
    if !Configured(cfg) then Success(Object(Demo()))
    else match reply
      case TimedOut => Failure(Timeout)
      case Answered(status, body, content) =>
        if status != 200 then Failure(RequestFailed(body))
        else match parse(content)
          case Some(a) => Success(a)
          case None =>
            match ExtractJson(content)
            case Failure(e) => Failure(e)
            case Success(candidate) =>
              match parse(candidate)
              case Some(a) => Success(a)
              case None => Failure(Unparseable(candidate))
  }

  /** A reply whose whole content fails to decode but whose first '{' comes
      before its last '}' is decoded from exactly the text between them. */
  lemma RepairUsesBraces(cfg: Config, reply: Reply, parse: string -> Option<JsonValue>, i: nat, j: nat)
    requires Configured(cfg) && reply.Answered? && reply.status == 200
    requires parse(reply.content).None?
    requires i < j < |reply.content|
    requires reply.content[i] == '{' && '{' !in reply.content[..i]
    requires reply.content[j] == '}' && '}' !in reply.content[j + 1..]
    ensures Translate(cfg, reply, parse) ==
      if parse(reply.content[i..j + 1]).Some? then Success(parse(reply.content[i..j + 1]).value)
      else Failure(Unparseable(reply.content[i..j + 1]))
  {
    ExtractBetween(reply.content, i, j);
  }
}
