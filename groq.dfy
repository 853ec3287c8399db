/**
 * Extraction of the mods a Patreon post announces, through a chat-completion model: the prompt,
 * the bounded retry loop, and the cleaning and structural validation of the model's answer.
 * The model's reply to each attempt and `JSON.parse` are functions passed in.
 */
module Groq {
  import opened Wrappers
  import opened Text

  /** A parsed JSON value; an object maps each key to its (last) value. */
  datatype Json =
    | JNull
    | JBool(b: bool)
    | JNumber(n: int)
    | JString(s: string)
    | JArray(items: seq<Json>)
    | JObject(fields: map<string, Json>)

  /** One mod the model reports. */
  datatype DetectedMod = DetectedMod(name: string, version: Option<string>, isUpdate: bool, isNewMod: bool, downloadUrl: Option<string>)

  /** The extraction result. */
  datatype Analysis = Analysis(mods: seq<DetectedMod>, confidence: real)

  /** Why an attempt failed; each is an error thrown inside the attempt. */
  datatype Failure =
    | RequestFailed
    | EmptyResponse
    | InvalidJson
    | MissingMods
    | NullMod
    | BadName
    | BadVersion
    | BadIsUpdate
    | BadIsNewMod

  function Message(f: Failure): string
  {
    match f
    case RequestFailed => "Request failed"
    case EmptyResponse => "Empty response from Groq"
    case InvalidJson => "Unexpected token in JSON"
    case MissingMods => "Invalid response structure: missing mods array"
    case NullMod => "Cannot read properties of null (reading 'name')"
    case BadName => "Invalid mod structure: missing or invalid name"
    case BadVersion => "Invalid mod structure: invalid version type"
    case BadIsUpdate => "Invalid mod structure: missing isUpdate boolean"
    case BadIsNewMod => "Invalid mod structure: missing isNewMod boolean"
  }

  /** The outcome of one attempt: its analysis, or the message of the error it threw. */
  datatype Outcome = Success(analysis: Analysis) | Failed(message: string)

  const MaxRetries: nat := 3
  const RetryDelay: nat := 2000
  const ContentLimit: nat := 2500
  const Confidence: real := 0.8
  const EmptyAnalysis: Analysis := Analysis([], 0.0)

  // ---------------------------------------------------------------------------------------
  // buildPrompt
  // ---------------------------------------------------------------------------------------

  /** The parts of the prompt that vary; the fixed instructions around them are not modelled. */
  datatype Prompt = Prompt(title: string, content: string, knownModsClause: string)

  const KnownModsHeader: string := "\n\nKnown mods in database: "

  /** The known-mods clause: present only when there are known mods, their names joined by ", ". */
  function KnownModsClause(knownMods: seq<string>): string
  {
    if |knownMods| > 0 then KnownModsHeader + Join(knownMods, ", ") else ""
  }

  function BuildPrompt(title: string, content: string, knownMods: seq<string>): Prompt
  {
    Prompt(title, content, KnownModsClause(knownMods))
  }

  /** Every name of a joined list occurs in the joined text. */
  lemma {:induction false} JoinContains(ws: seq<string>, sep: string, i: nat)
    requires i < |ws|
    ensures exists k :: OccursAt(Join(ws, sep), ws[i], k)
  {
    var j := Join(ws, sep);
    if |ws| == 1 {
      assert OccursAt(j, ws[0], 0);
    } else if i == 0 {
      assert j == ws[0] + (sep + Join(ws[1..], sep));
      assert OccursAt(j, ws[0], 0);
    } else {
      JoinContains(ws[1..], sep, i - 1);
      var rest := Join(ws[1..], sep);
      var k :| OccursAt(rest, ws[1..][i - 1], k);
      assert j == (ws[0] + sep) + rest;
      OccursAfterPrefix(ws[0] + sep, rest, ws[i], k);
    }
  }

  /** One known mod's name occurs in the clause. */
  lemma KnownModNamed(knownMods: seq<string>, i: nat)
    requires i < |knownMods|
    ensures Contains(KnownModsClause(knownMods), knownMods[i])
  {
    JoinContains(knownMods, ", ", i);
    var j := Join(knownMods, ", ");
    var k :| OccursAt(j, knownMods[i], k);
    var c := KnownModsClause(knownMods);
    assert c == KnownModsHeader + j;
    assert c[|KnownModsHeader| + k..|KnownModsHeader| + k + |knownMods[i]|] == j[k..k + |knownMods[i]|];
    assert OccursAt(c, knownMods[i], |KnownModsHeader| + k);
    ContainsIff(c, knownMods[i]);
  }

  /** The clause is empty exactly for an empty list; otherwise it names every known mod. */
  lemma KnownModsClauseMeaning(knownMods: seq<string>)
    ensures KnownModsClause(knownMods) == "" <==> |knownMods| == 0
    ensures forall i :: 0 <= i < |knownMods| ==> Contains(KnownModsClause(knownMods), knownMods[i])
  {
    if |knownMods| > 0 {
      assert KnownModsClause(knownMods)[0] == '\n';
    }
    forall i | 0 <= i < |knownMods|
      ensures Contains(KnownModsClause(knownMods), knownMods[i])
    {
      KnownModNamed(knownMods, i);
    }
  }

  // ---------------------------------------------------------------------------------------
  // parseAndValidateResponse
  // ---------------------------------------------------------------------------------------

  /** The reply text without surrounding space and without a Markdown code fence. */
  function StripFences(content: string): string
  {
    var a := Trim(content);
    var b := if StartsWith(a, "```json") then a[7..] else a;
    var c := if StartsWith(b, "```") then b[3..] else b;
    var d := if EndsWith(c, "```") then c[..|c| - 3] else c;
    Trim(d)
  }

  /** One element of `mods`: the first check it fails, in the order they are made. */
  function ModOf(item: Json): Result<DetectedMod>
  {
    if item.JNull? then Err(Message(NullMod))
    else if !item.JObject? then Err(Message(BadName))
    else
      var f := item.fields;
      if !("name" in f && f["name"].JString? && f["name"].s != "") then Err(Message(BadName))
      else if !("version" in f && (f["version"].JNull? || f["version"].JString?)) then Err(Message(BadVersion))
      else if !("isUpdate" in f && f["isUpdate"].JBool?) then Err(Message(BadIsUpdate))
      else if !("isNewMod" in f && f["isNewMod"].JBool?) then Err(Message(BadIsNewMod))
      else
        var url := if "downloadUrl" in f && f["downloadUrl"].JString? then Some(f["downloadUrl"].s) else None;
        var version := if f["version"].JString? then Some(f["version"].s) else None;
        Ok(DetectedMod(f["name"].s, version, f["isUpdate"].b, f["isNewMod"].b, url))
  }

  /** All elements, or the first element's failure. */
  function ModsOf(items: seq<Json>): Result<seq<DetectedMod>>
  {
    if |items| == 0 then Ok([])
    else
      var first := ModOf(items[0]);
      if first.Err? then Err(first.error)
      else
        var rest := ModsOf(items[1..]);
        if rest.Err? then rest else Ok([first.value] + rest.value)
  }

  predicate HasModsArray(parsed: Json)
  {
    parsed.JObject? && "mods" in parsed.fields && parsed.fields["mods"].JArray?
  }

  /** What a parsed reply yields: its mods, with confidence 0.8 when there are any and 0 otherwise. */
  function Validate(parsed: Option<Json>): Result<Analysis>
  {
    if parsed.None? then Err(Message(InvalidJson))
    else if !HasModsArray(parsed.value) then Err(Message(MissingMods))
    else
      var mods := ModsOf(parsed.value.fields["mods"].items);
      if mods.Err? then Err(mods.error)
      else Ok(Analysis(mods.value, if |mods.value| > 0 then Confidence else 0.0))
  }

  /** parseAndValidateResponse: clean the reply step by step, parse it, and check every element. */
  method ParseAndValidateResponse(content: string, parse: string -> Option<Json>) returns (r: Result<Analysis>)
    ensures r == Validate(parse(StripFences(content)))
  {
    var cleaned := Trim(content);
    if StartsWith(cleaned, "```json") {
      cleaned := cleaned[7..];
    }
    if StartsWith(cleaned, "```") {
      cleaned := cleaned[3..];
    }
    if EndsWith(cleaned, "```") {
      cleaned := cleaned[..|cleaned| - 3];
    }
    cleaned := Trim(cleaned);
    assert cleaned == StripFences(content);
    var parsed := parse(cleaned);
    if parsed.None? {
      return Err(Message(InvalidJson));
    }
    if !HasModsArray(parsed.value) {
      return Err(Message(MissingMods));
    }
    var mods := CheckMods(parsed.value.fields["mods"].items);
    if mods.Err? {
      return Err(mods.error);
    }
    return Ok(Analysis(mods.value, if |mods.value| > 0 then Confidence else 0.0));
  }

  /** The loop over `mods`: the first element that fails a check ends it. */
  method CheckMods(items: seq<Json>) returns (r: Result<seq<DetectedMod>>)
    ensures r == ModsOf(items)
  {
    var mods: seq<DetectedMod> := [];
    assert items[0..] == items;
    assert ModsOf(items).Ok? ==> [] + ModsOf(items).value == ModsOf(items).value;
    for i := 0 to |items|
      invariant ModsOf(items) == (var rest := ModsOf(items[i..]); if rest.Err? then rest else Ok(mods + rest.value))
    {
      assert items[i..][1..] == items[i + 1..];
      var m := ModOf(items[i]);
      if m.Err? {
        return Err(m.error);
      }
      var rest := ModsOf(items[i + 1..]);
      if rest.Ok? {
        assert mods + ([m.value] + rest.value) == (mods + [m.value]) + rest.value;
      }
      mods := mods + [m.value];
    }
    assert items[|items|..] == [];
    assert mods + [] == mods;
    return Ok(mods);
  }

  /** Text without fences is only trimmed. */
  lemma UnfencedOnlyTrimmed(content: string)
    requires !StartsWith(Trim(content), "```") && !EndsWith(Trim(content), "```")
    ensures StripFences(content) == Trim(content)
  {
    var a := Trim(content);
    assert !StartsWith(a, "```json") by {
      if |a| >= 7 {
        assert a[..3] == a[..7][..3];
      }
    }
    TrimIdempotent(content);
  }

  /** A ```json fence around a body gives the trimmed body. */
  lemma FencedBody(body: string)
    requires |body| == 0 || body[0] != '`'
    ensures StripFences("```json" + body + "```") == Trim(body)
  {
    var s := "```json" + body + "```";
    assert s[0] == '`' && s[|s| - 1] == '`';
    TrimEnds(s);
    assert s[..7] == "```json";
    var b := s[7..];
    assert b == body + "```";
    if |body| == 0 {
      assert b == "```";
      assert b[3..] == "";
    } else {
      assert b[0] != '`';
      assert !StartsWith(b, "```");
      assert b[|b| - 3..] == "```";
      assert b[..|b| - 3] == body;
    }
  }

  /** Every element passes exactly when the elements yield mods, one mod per element. */
  lemma {:induction false} ModsOfMeaning(items: seq<Json>)
    ensures ModsOf(items).Ok? <==> forall i :: 0 <= i < |items| ==> ModOf(items[i]).Ok?
    ensures ModsOf(items).Ok? ==>
      |ModsOf(items).value| == |items| && forall i :: 0 <= i < |items| ==> ModsOf(items).value[i] == ModOf(items[i]).value
    ensures ModsOf(items).Err? ==> exists i :: 0 <= i < |items| && ModOf(items[i]).Err? && ModsOf(items).error == ModOf(items[i]).error
  {
    if |items| > 0 {
      ModsOfMeaning(items[1..]);
      if ModOf(items[0]).Ok? && ModsOf(items[1..]).Err? {
        var i :| 0 <= i < |items[1..]| && ModOf(items[1..][i]).Err? && ModsOf(items[1..]).error == ModOf(items[1..][i]).error;
        assert items[1..][i] == items[i + 1];
      }
      if !(forall i :: 0 <= i < |items| ==> ModOf(items[i]).Ok?) {
        var i :| 0 <= i < |items| && !ModOf(items[i]).Ok?;
        if i > 0 {
          assert items[1..][i - 1] == items[i];
        }
      }
    }
  }

  /** What one element must hold to be accepted; an absent version is rejected, the URL is never checked. */
  lemma ModOfMeaning(item: Json)
    ensures ModOf(item).Ok? <==>
      item.JObject?
      && "name" in item.fields && item.fields["name"].JString? && item.fields["name"].s != ""
      && "version" in item.fields && (item.fields["version"].JNull? || item.fields["version"].JString?)
      && "isUpdate" in item.fields && item.fields["isUpdate"].JBool?
      && "isNewMod" in item.fields && item.fields["isNewMod"].JBool?
    ensures ModOf(item).Ok? ==>
      var m := ModOf(item).value;
      m.name == item.fields["name"].s && m.name != ""
      && m.isUpdate == item.fields["isUpdate"].b && m.isNewMod == item.fields["isNewMod"].b
      && (m.version.None? <==> item.fields["version"].JNull?)
  {
  }

  /**
   * A reply is accepted exactly when it has a `mods` array whose every element passes; the mods
   * come back one per element and in order, with confidence 0.8 when there are any and 0 when
   * there are none.
   */
  lemma ValidateMeaning(parsed: Option<Json>)
    ensures Validate(parsed).Ok? <==>
      parsed.Some? && HasModsArray(parsed.value)
      && forall i :: 0 <= i < |parsed.value.fields["mods"].items| ==> ModOf(parsed.value.fields["mods"].items[i]).Ok?
    ensures Validate(parsed).Ok? ==>
      var items := parsed.value.fields["mods"].items;
      var a := Validate(parsed).value;
      |a.mods| == |items| && (forall i :: 0 <= i < |items| ==> a.mods[i] == ModOf(items[i]).value)
      && (a.confidence == 0.8 <==> |items| > 0) && (a.confidence == 0.0 <==> |items| == 0)
  {
    if parsed.Some? && HasModsArray(parsed.value) {
      ModsOfMeaning(parsed.value.fields["mods"].items);
    }
  }

  // ---------------------------------------------------------------------------------------
  // analyzePatreonPost
  // ---------------------------------------------------------------------------------------

  /** The model's reply to one request: a failed request, or a completion whose text may be missing. */
  datatype Reply = NoReply | Completion(content: Option<string>)

  /** The outcome of one attempt, given the model's reply. */
  function AttemptOutcome(reply: Reply, parse: string -> Option<Json>): Outcome
  {
    if reply.NoReply? then Failed(Message(RequestFailed))
    else if reply.content.None? || reply.content.value == "" then Failed(Message(EmptyResponse))
    else
      var v := Validate(parse(StripFences(reply.content.value)));
      if v.Ok? then Success(v.value) else Failed(v.error)
  }

  /** The first attempt from `attempt` to the last whose outcome is a success, with its analysis. */
  function FirstOf(outcome: nat -> Outcome, attempt: nat): Option<(nat, Analysis)>
    decreases MaxRetries + 1 - attempt
  {
    if attempt > MaxRetries then None
    else if outcome(attempt).Success? then Some((attempt, outcome(attempt).analysis))
    else FirstOf(outcome, attempt + 1)
  }

  /** The outcome of each attempt, all with the same prompt. */
  function Outcomes(prompt: Prompt, llm: (Prompt, nat) -> Reply, parse: string -> Option<Json>): nat -> Outcome
  {
    (j: nat) => AttemptOutcome(llm(prompt, j), parse)
  }

  /** The first attempt from `attempt` to the last that succeeds, with its analysis. */
  function FirstSuccess(prompt: Prompt, llm: (Prompt, nat) -> Reply, parse: string -> Option<Json>, attempt: nat): Option<(nat, Analysis)>
  {
    FirstOf(Outcomes(prompt, llm, parse), attempt)
  }

  /** The analysis analyzePatreonPost returns: the first valid one, else the empty analysis. */
  function Extracted(title: string, content: string, knownMods: seq<string>,
                     llm: (Prompt, nat) -> Reply, parse: string -> Option<Json>): Analysis
  {
    match FirstSuccess(BuildPrompt(title, Take(content, ContentLimit), knownMods), llm, parse, 1)
    case Some((_, a)) => a
    case None => EmptyAnalysis
  }

  /** The waits after the first `n` failed attempts: 2000 ms times the attempt number. */
  function Delays(n: nat): seq<nat>
  {
    seq(n, i => RetryDelay * (i + 1))
  }

  /**
   * analyzePatreonPost: at most three requests with the same prompt; the first valid analysis
   * is returned, a wait of 2000·k ms follows each failed attempt k before the last, and when
   * every attempt fails the result is the empty analysis, never an error.
   */
  method AnalyzePatreonPost(title: string, content: string, knownMods: seq<string>,
                            llm: (Prompt, nat) -> Reply, parse: string -> Option<Json>)
    returns (r: Analysis, requests: nat, waits: seq<nat>)
    ensures r == Extracted(title, content, knownMods, llm, parse)
    ensures var prompt := BuildPrompt(title, Take(content, ContentLimit), knownMods);
      match FirstSuccess(prompt, llm, parse, 1)
      case Some((k, a)) => r == a && requests == k && waits == Delays(k - 1)
      case None => r == EmptyAnalysis && requests == MaxRetries && waits == Delays(MaxRetries - 1)
  {
    var prompt := BuildPrompt(title, Take(content, ContentLimit), knownMods);
    requests := 0;
    waits := [];
    var attempt := 1;
    while attempt <= MaxRetries
      invariant 1 <= attempt <= MaxRetries
      invariant requests == attempt - 1 && waits == Delays(attempt - 1)
      invariant FirstSuccess(prompt, llm, parse, 1) == FirstSuccess(prompt, llm, parse, attempt)
      decreases MaxRetries - attempt
    {
      requests := requests + 1;
      var reply := llm(prompt, attempt);
      var outcome: Outcome;
      if reply.NoReply? {
        outcome := Failed(Message(RequestFailed));
      } else if reply.content.None? || reply.content.value == "" {
        outcome := Failed(Message(EmptyResponse));
      } else {
        var parsed := ParseAndValidateResponse(reply.content.value, parse);
        outcome := if parsed.Ok? then Success(parsed.value) else Failed(parsed.error);
      }
      assert outcome == Outcomes(prompt, llm, parse)(attempt);
      assert FirstOf(Outcomes(prompt, llm, parse), attempt)
        == if outcome.Success? then Some((attempt, outcome.analysis)) else FirstOf(Outcomes(prompt, llm, parse), attempt + 1);
      if outcome.Success? {
        return outcome.analysis, requests, waits;
      }
      if attempt == MaxRetries {
        return EmptyAnalysis, requests, waits;
      }
      waits := waits + [RetryDelay * attempt];
      attempt := attempt + 1;
    }
  }

  /** The attempt that is used is the first one from `attempt` on that succeeds: every earlier one failed. */
  lemma {:induction false} FirstSuccessFound(outcome: nat -> Outcome, attempt: nat)
    requires FirstOf(outcome, attempt).Some?
    ensures var (k, a) := FirstOf(outcome, attempt).value;
      attempt <= k <= MaxRetries && outcome(k) == Success(a)
      && forall j :: attempt <= j < k ==> outcome(j).Failed?
    decreases MaxRetries + 1 - attempt
  {
    if !outcome(attempt).Success? {
      FirstSuccessFound(outcome, attempt + 1);
    }
  }

  /** With no success from `attempt` on, every attempt up to the third failed. */
  lemma {:induction false} FirstSuccessNone(outcome: nat -> Outcome, attempt: nat)
    requires FirstOf(outcome, attempt).None?
    ensures forall j :: attempt <= j <= MaxRetries ==> outcome(j).Failed?
    decreases MaxRetries + 1 - attempt
  {
    if attempt <= MaxRetries {
      FirstSuccessNone(outcome, attempt + 1);
    }
  }

  /** The prompt carries the first 2500 characters of the content, and only those. */
  lemma PromptContent(title: string, content: string, knownMods: seq<string>)
    ensures var p := BuildPrompt(title, Take(content, ContentLimit), knownMods);
      |p.content| <= 2500 && StartsWith(content, p.content)
      && (|content| <= 2500 ==> p.content == content)
  {
  }
}
