/**
 * The AI generation client of backend/services/ai.service.js: one lazily built handle to the model
 * endpoint, and the post-processing of the model's reply (extract, trim, strip a markdown fence, parse).
 * The request itself, the credentials and the prompt template are an oracle; so is `JSON.parse`.
 */
module AiService {
  import opened Wrappers
  import opened JsValues
  import opened Text

  /** The errors `generateContent` throws. */
  datatype AiError =
    | NoResponseText              // "No response text received from Gemini API"
    | InvalidJson                 // "Gemini response was not valid JSON"
    | ClientSetupFailed(msg: string)  // decoding the credentials or `auth.getClient()` threw
    | RequestFailed(msg: string)      // `ai.models.generateContent` threw

  /** An opaque handle to the authenticated SDK object. */
  datatype ClientHandle = ClientHandle(id: nat)

  /** `JSON.parse` as an opaque partial function: `None` when it throws. */
  type Parser = string -> Option<Json>

  /** The model call: the reply's `candidates[0].content.parts[0].text` (None when any link is missing), or the error it throws. */
  type ModelCall = (ClientHandle, string) -> Result<Option<string>, string>

  predicate NoTripleBacktick(s: string)
  {
    forall i :: 0 <= i < |s| - 2 ==> !(s[i] == '`' && s[i + 1] == '`' && s[i + 2] == '`')
  }

  /**
   * `s.replace(/```json|```/g, '')`: one left-to-right pass that, at each position, removes "```json"
   * if it starts there, else "```", else keeps the character.
   */
  function StripFences(s: string): (r: string)
    ensures |r| <= |s|
    decreases |s|
  {
    if StartsWith(s, "```json") then StripFences(s[7..])
    else if StartsWith(s, "```") then StripFences(s[3..])
    else if s == [] then []
    else [s[0]] + StripFences(s[1..])
  }

  /** A stripped text starts with two backticks only if the input did. */
  lemma {:induction false} StripFencesKeepsShortLead(t: string)
    requires !StartsWith(t, "``")
    ensures !StartsWith(StripFences(t), "``")
  {
    if t != [] {
      assert t[0] != '`' || |t| == 1 || t[1] != '`';
      assert !StartsWith(t, "```") && !StartsWith(t, "```json");
      var rest := t[1..];
      var r := StripFences(t);
      assert r == [t[0]] + StripFences(rest);
      if t[0] == '`' && |t| >= 2 {
        assert rest[0] == t[1] != '`';
        assert !StartsWith(rest, "```") && !StartsWith(rest, "```json");
        assert StripFences(rest) == [rest[0]] + StripFences(rest[1..]);
        assert r[1] == t[1];
      } else if t[0] == '`' {
        assert rest == [];
        assert |r| == 1;
      } else {
        assert r[0] != '`';
      }
    }
  }

  /** Two backticks are shorter than either marker, so the pass keeps them. */
  lemma DoubleBacktickSurvives()
    ensures StripFences("``") == "``"
  {
    var one, two := "`", "``";
    assert two[1..] == one && one[1..] == [];
    assert StripFences(one) == one + StripFences([]);
    assert StripFences(two) == [two[0]] + StripFences(one);
  }

  /** The single pass leaves no fence marker behind: no three consecutive backticks survive. */
  lemma {:induction false} StripFencesLeavesNoFence(s: string)
    ensures NoTripleBacktick(StripFences(s))
    decreases |s|
  {
    if StartsWith(s, "```json") {
      StripFencesLeavesNoFence(s[7..]);
    } else if StartsWith(s, "```") {
      StripFencesLeavesNoFence(s[3..]);
    } else if s != [] {
      var x := StripFences(s[1..]);
      StripFencesLeavesNoFence(s[1..]);
      var r := [s[0]] + x;
      assert StripFences(s) == r;
      if s[0] == '`' {
        assert !StartsWith(s[1..], "``");
        StripFencesKeepsShortLead(s[1..]);
      }
      forall i | 0 <= i < |r| - 2
        ensures !(r[i] == '`' && r[i + 1] == '`' && r[i + 2] == '`')
      {
        if i > 0 {
          assert r[i] == x[i - 1] && r[i + 1] == x[i] && r[i + 2] == x[i + 1];
        } else if s[0] == '`' {
          assert x[..2] == r[1..3];
        }
      }
    }
  }

  /** Text without backticks passes through the stripping pass untouched. */
  lemma {:induction false} StripFencesOfPlainPrefix(body: string, rest: string)
    requires '`' !in body
    ensures StripFences(body + rest) == body + StripFences(rest)
  {
    if body != [] {
      var s := body + rest;
      assert s[0] == body[0] != '`';
      assert !StartsWith(s, "```json") && !StartsWith(s, "```");
      assert StripFences(s) == [s[0]] + StripFences(s[1..]);
      assert s[1..] == body[1..] + rest;
      StripFencesOfPlainPrefix(body[1..], rest);
      assert body == [body[0]] + body[1..];
    } else {
      assert body + rest == rest;
    }
  }

  /** The text handed to the parser: unchanged, or, when it opens with a fence, stripped of every marker and trimmed. */
  function Cleaned(raw: string): string
  {
    if StartsWith(raw, "```json") || StartsWith(raw, "```") then Trim(StripFences(raw)) else raw
  }

  /** A text that opens with a fence comes out trimmed and free of every marker; any other text is left alone. */
  lemma CleanedRemovesFences(raw: string)
    ensures !StartsWith(raw, "```") ==> Cleaned(raw) == raw
    ensures StartsWith(raw, "```") ==> NoTripleBacktick(Cleaned(raw)) && Trim(Cleaned(raw)) == Cleaned(raw)
  {
    JsonFenceTestIsRedundant(raw);
    if StartsWith(raw, "```") {
      var stripped := StripFences(raw);
      StripFencesLeavesNoFence(raw);
      TrimKeepsNoTripleBacktick(stripped);
      TrimIdempotent(stripped);
    }
  }

  /** Trimming cuts a slice out of the text, so it cannot create a run of three backticks. */
  lemma TrimKeepsNoTripleBacktick(s: string)
    requires NoTripleBacktick(s)
    ensures NoTripleBacktick(Trim(s))
  {
    var k := TrimIsSlice(s);
    SliceKeepsNoTripleBacktick(s, Trim(s), k);
  }

  /** A slice of a text without three backticks in a row has none either. */
  lemma SliceKeepsNoTripleBacktick(s: string, t: string, lo: nat)
    requires lo + |t| <= |s| && t == s[lo..lo + |t|] && NoTripleBacktick(s)
    ensures NoTripleBacktick(t)
  {
    forall i | 0 <= i < |t| - 2
      ensures !(t[i] == '`' && t[i + 1] == '`' && t[i + 2] == '`')
    {
      assert t[i] == s[lo + i] && t[i + 1] == s[lo + i + 1] && t[i + 2] == s[lo + i + 2];
    }
  }

  /**
   * The reply handling of `generateContent`: trim the text, reject a missing or blank text before any
   * parse, clean a fenced text, then return the parse unchanged or fail with a distinct error.
   */
  function PostProcess(text: Option<string>, parse: Parser): (r: Result<Json, AiError>)
    ensures r.Failure? ==> r.error == NoResponseText || r.error == InvalidJson
    ensures r == Failure(NoResponseText) <==> text.None? || AllWhitespace(text.value)
    ensures r.Success? ==> parse(Cleaned(Trim(text.value))) == Some(r.value)
    ensures r == Failure(InvalidJson) ==> parse(Cleaned(Trim(text.value))).None?
  {
    if text.None? then Failure(NoResponseText)
    else
      var raw := Trim(text.value);
      if raw == "" then Failure(NoResponseText)
      else match parse(Cleaned(raw))
        case Some(v) => Success(v)
        case None => Failure(InvalidJson)
  }

  /** A missing or blank reply is rejected whatever the parser would say: no parse is attempted. */
  lemma BlankReplyIsNeverParsed(text: Option<string>, parse1: Parser, parse2: Parser)
    requires text.None? || AllWhitespace(text.value)
    ensures PostProcess(text, parse1) == PostProcess(text, parse2) == Failure(NoResponseText)
  {
  }

  /** The reopening "```json" test is subsumed by the "```" test. */
  lemma JsonFenceTestIsRedundant(raw: string)
    ensures (StartsWith(raw, "```json") || StartsWith(raw, "```")) == StartsWith(raw, "```")
  {
    if StartsWith(raw, "```json") {
      assert raw[..3] == raw[..7][..3];
    }
  }

  /** A text that does not open with a fence reaches the parser exactly as trimmed. */
  lemma UnfencedReplyParsedAsTrimmed(text: string, parse: Parser)
    requires !AllWhitespace(text) && !StartsWith(Trim(text), "```")
    ensures PostProcess(Some(text), parse) ==
            if parse(Trim(text)).Some? then Success(parse(Trim(text)).value) else Failure(InvalidJson)
  {
    JsonFenceTestIsRedundant(Trim(text));
  }

  /** Trimming never brings in a character the text did not have. */
  lemma TrimKeepsCharacters(s: string, c: char)
    requires c !in s
    ensures c !in Trim(s)
  {
    var a := TrimStart(s);
    assert a == s[|s| - |a|..];
    assert c !in a;
    assert Trim(s) == TrimEnd(a) == a[..|Trim(s)|];
  }

  /** A fenced text has no surrounding whitespace to trim. */
  lemma FencedTextIsTrimmed(body: string)
    ensures Trim("```json" + body + "```") == "```json" + body + "```"
  {
    var text := "```json" + body + "```";
    var none: string := [];
    assert none + text + none == text;
    assert text[0] == '`' && text[|text| - 1] == '`';
    TrimOfPadded(none, text, none);
  }

  /** A fenced text opens with both fence forms. */
  lemma FencedTextOpensWithFence(body: string)
    ensures StartsWith("```json" + body + "```", "```json")
    ensures StartsWith("```json" + body + "```", "```")
  {
    var text := "```json" + body + "```";
    assert text[..7] == "```json";
    JsonFenceTestIsRedundant(text);
  }

  /** Stripping a fenced text whose body has no backtick leaves the body. */
  lemma StripFencedText(body: string)
    requires '`' !in body
    ensures StripFences("```json" + body + "```") == body
  {
    var text := "```json" + body + "```";
    FencedTextOpensWithFence(body);
    assert text[7..] == body + "```";
    StripFencesOfPlainPrefix(body, "```");
    var fence := "```";
    assert StartsWith(fence, "```") && fence[3..] == [];
    assert StripFences(fence) == [];
    assert body + [] == body;
  }

  /** The outcome of the parse step. */
  function ParseOutcome(parsed: Option<Json>): Result<Json, AiError>
  {
    if parsed.Some? then Success(parsed.value) else Failure(InvalidJson)
  }

  /** A reply with some non-blank text is decided by the parse of its cleaned form. */
  lemma NonBlankReply(text: string, parse: Parser)
    requires !AllWhitespace(text)
    ensures PostProcess(Some(text), parse) == ParseOutcome(parse(Cleaned(Trim(text))))
  {
  }

  /** Cleaning a fenced text yields the trimmed body. */
  lemma CleanedFencedText(body: string)
    requires '`' !in body
    ensures Cleaned(Trim("```json" + body + "```")) == Trim(body)
  {
    FencedTextIsTrimmed(body);
    StripFencedText(body);
    FencedTextOpensWithFence(body);
  }

  /** A trimmed text without backticks is its own cleaned form. */
  lemma CleanedPlainText(body: string)
    requires '`' !in body
    ensures Cleaned(Trim(body)) == Trim(body)
  {
    var t := Trim(body);
    TrimKeepsCharacters(body, '`');
    assert !StartsWith(t, "```");
    JsonFenceTestIsRedundant(t);
  }

  /** A body wrapped in a "```json ... ```" fence is handled exactly as the bare body would be. */
  lemma FencedReplyParsesLikeBody(body: string, parse: Parser)
    requires '`' !in body && !AllWhitespace(body)
    ensures PostProcess(Some("```json" + body + "```"), parse) == PostProcess(Some(body), parse)
  {
    var text := "```json" + body + "```";
    CleanedFencedText(body);
    CleanedPlainText(body);
    assert !AllWhitespace(text) by { assert !IsWhitespace(text[0]); }
    NonBlankReply(text, parse);
    NonBlankReply(body, parse);
  }

  /** Whitespace around a reply does not change how it is handled. */
  lemma PaddedReplyParsesLikeBody(lead: string, body: string, trail: string, parse: Parser)
    requires AllWhitespace(lead) && AllWhitespace(trail) && body != []
    requires !IsWhitespace(body[0]) && !IsWhitespace(body[|body| - 1])
    ensures PostProcess(Some(lead + body + trail), parse) == PostProcess(Some(body), parse)
  {
    TrimOfPadded(lead, body, trail);
    var none: string := [];
    assert none + body + none == body;
    TrimOfPadded(none, body, none);
    ReplyDecidedByTrim(lead + body + trail, body, parse);
  }

  /** The reply handling depends on the text only through its trimmed form. */
  lemma ReplyDecidedByTrim(a: string, b: string, parse: Parser)
    requires Trim(a) == Trim(b)
    ensures PostProcess(Some(a), parse) == PostProcess(Some(b), parse)
  {
  }

  /** The example reply "```json\n{"text":"hi"}\n```" is parsed as the bare object text. */
  lemma FencedExampleReply(parse: Parser)
    ensures PostProcess(Some("```json\n{\"text\":\"hi\"}\n```"), parse) ==
            PostProcess(Some("{\"text\":\"hi\"}"), parse)
  {
    var reply := "```json\n{\"text\":\"hi\"}\n```";
    var obj := "{\"text\":\"hi\"}";
    var nl := "\n";
    var body := nl + obj + nl;
    assert reply == "```json" + body + "```";
    assert '`' !in body;
    assert !IsWhitespace(body[1]);
    assert !IsWhitespace(obj[0]) && !IsWhitespace(obj[|obj| - 1]);
    FencedReplyParsesLikeBody(body, parse);
    PaddedReplyParsesLikeBody(nl, obj, nl, parse);
    assert PostProcess(Some(reply), parse) == PostProcess(Some(obj), parse);
  }

  /**
   * The module-level `ai` singleton and the console log of unparsable replies.
   * `builds` counts how many handles were ever constructed.
   */
  class GeminiService {
    var client: Option<ClientHandle>
    var builds: nat
    var parseFailureLog: seq<string>

    ghost predicate Valid()
      reads this
    {
      builds == if client.Some? then 1 else 0
    }

    constructor ()
      ensures Valid() && client.None? && parseFailureLog == []
    {
      client := None;
      builds := 0;
      parseFailureLog := [];
    }

    /**
     * `generateContent(prompt)`. `connect` is what building the handle would produce; it is used only
     * when no handle exists yet, and a failed build leaves the singleton unset.
     */
    method GenerateContent(prompt: string, connect: Result<ClientHandle, string>, call: ModelCall, parse: Parser)
      returns (r: Result<Json, AiError>)
      requires Valid()
      modifies this
      ensures Valid() && builds <= 1
      ensures old(client).Some? ==> client == old(client)
      ensures old(client).None? ==> client == (if connect.Success? then Some(connect.value) else None)
      ensures old(client).None? && connect.Failure? ==> r == Failure(ClientSetupFailed(connect.error))
      ensures client.Some? ==>
                r == match call(client.value, prompt)
                     case Failure(e) => Failure(RequestFailed(e))
                     case Success(text) => PostProcess(text, parse)
      ensures parseFailureLog == old(parseFailureLog) +
                (if r == Failure(InvalidJson) then [Cleaned(Trim(call(client.value, prompt).value.value))] else [])
    {
      if client.None? {
        if connect.Failure? {
          return Failure(ClientSetupFailed(connect.error));
        }
        client := Some(connect.value);
        builds := builds + 1;
      }
      var result := call(client.value, prompt);
      if result.Failure? {
        return Failure(RequestFailed(result.error));
      }
      ghost var post := PostProcess(result.value, parse);
      if result.value.None? {
        assert post == Failure(NoResponseText);
        return Failure(NoResponseText);
      }
      var raw := Trim(result.value.value);
      if raw == "" {
        assert post == Failure(NoResponseText);
        return Failure(NoResponseText);
      }
      if StartsWith(raw, "```json") || StartsWith(raw, "```") {
        raw := Trim(StripFences(raw));
      }
      assert raw == Cleaned(Trim(result.value.value));
      var parsed := parse(raw);
      if parsed.None? {
        assert post == Failure(InvalidJson);
        parseFailureLog := parseFailureLog + [raw];
        return Failure(InvalidJson);
      }
      assert post == Success(parsed.value);
      return Success(parsed.value);
    }
  }
}
