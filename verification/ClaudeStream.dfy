/** What `run_claude_code` makes of the messages the SDK streams and of how the stream ends. */
module ClaudeStream {
  import opened Wrappers
  import Text

  datatype Block = TextBlock(text: string) | OtherBlock

  datatype Message =
    | Assistant(error: Option<string>, content: seq<Block>)
    | ResultMessage(isError: bool, result: Option<string>)
    | OtherMessage

  /** A timeout, or another exception with its text; cliMissing marks `CLINotFoundError`. */
  datatype Ending = Clean | TimedOut | Crashed(cliMissing: bool, what: string)

  const API_ERROR_LABELS := map[
    "billing_error" := "API billing error",
    "authentication_failed" := "API authentication failed",
    "rate_limit" := "API rate limit exceeded",
    "invalid_request" := "Invalid API request",
    "server_error" := "Anthropic API server error"]

  /** `sep.join(parts)`. */
  function Join(sep: string, parts: seq<string>): string {
    if parts == [] then "" else if |parts| == 1 then parts[0] else parts[0] + sep + Join(sep, parts[1..])
  }

  function BlockTexts(content: seq<Block>): seq<string> {
    if content == [] then []
    else BlockTexts(content[..|content| - 1])
         + if content[|content| - 1].TextBlock? then [content[|content| - 1].text] else []
  }

  predicate Present(s: Option<string>) {
    s.Some? && s.value != ""
  }

  predicate AssistantError(m: Message) {
    m.Assistant? && Present(m.error)
  }

  predicate ResultError(m: Message) {
    m.ResultMessage? && m.isError
  }

  /** The text an error is reported with. */
  function ErrorText(m: Message): (text: string)
    requires AssistantError(m) || ResultError(m)
    ensures text != ""
  {
    if m.Assistant? then
      var code := m.error.value;
      var name := if code in API_ERROR_LABELS then API_ERROR_LABELS[code] else code;
      var detail := Text.Strip(Join(" ", BlockTexts(m.content)));
      if detail != "" then name + ": " + detail else name
    else if Present(m.result) then m.result.value
    else "Claude Code returned an error"
  }

  /** The texts one message adds. */
  function NewTexts(m: Message): seq<string> {
    if m.Assistant? && !AssistantError(m) then BlockTexts(m.content) else []
  }

  /** The texts of assistant messages that carry no error. */
  function Texts(messages: seq<Message>): seq<string> {
    if messages == [] then []
    else Texts(messages[..|messages| - 1]) + NewTexts(messages[|messages| - 1])
  }

  // ----- Which error counts -----

  ghost predicate LastAssistantError(messages: seq<Message>, i: int) {
    && 0 <= i < |messages| && AssistantError(messages[i])
    && forall j :: i < j < |messages| ==> !AssistantError(messages[j])
  }

  ghost predicate FirstResultError(messages: seq<Message>, i: int) {
    && 0 <= i < |messages| && ResultError(messages[i])
    && (forall j :: 0 <= j < i ==> !ResultError(messages[j]))
    && (forall j :: 0 <= j < |messages| ==> !AssistantError(messages[j]))
  }

  ghost predicate NoError(messages: seq<Message>) {
    forall m :: m in messages ==> !AssistantError(m) && !ResultError(m)
  }

  /** The captured error: that of the last assistant message with one, else of the first such result. */
  ghost predicate Captures(messages: seq<Message>, error: Option<string>) {
    match error
    case None => NoError(messages)
    case Some(text) =>
      exists i :: (LastAssistantError(messages, i) || FirstResultError(messages, i)) && text == ErrorText(messages[i])
  }

  /** Exactly one outcome is captured. */
  lemma CapturesOne(messages: seq<Message>, e1: Option<string>, e2: Option<string>)
    requires Captures(messages, e1) && Captures(messages, e2)
    ensures e1 == e2
  {
    if e1.Some? && e2.Some? {
      var i :| (LastAssistantError(messages, i) || FirstResultError(messages, i)) && e1.value == ErrorText(messages[i]);
      var j :| (LastAssistantError(messages, j) || FirstResultError(messages, j)) && e2.value == ErrorText(messages[j]);
      assert i == j;
    }
  }

  /** The captured error after one more message. */
  function NextError(before: Option<string>, m: Message): Option<string> {
    if AssistantError(m) || (ResultError(m) && before.None?) then Some(ErrorText(m)) else before
  }

  lemma AssistantErrorCounts(messages: seq<Message>, m: Message)
    requires AssistantError(m)
    ensures Captures(messages + [m], Some(ErrorText(m)))
  {
    assert (messages + [m])[|messages|] == m;
    assert LastAssistantError(messages + [m], |messages|);
  }

  lemma FirstErrorCounts(messages: seq<Message>, m: Message)
    requires NoError(messages) && !AssistantError(m)
    ensures Captures(messages + [m], NextError(None, m))
  {
    var all := messages + [m];
    assert all[|messages|] == m;
    assert forall j :: 0 <= j < |messages| ==> all[j] == messages[j] && messages[j] in messages;
    if ResultError(m) {
      assert FirstResultError(all, |messages|);
    }
  }

  lemma EarlierErrorCounts(messages: seq<Message>, m: Message, text: string)
    requires Captures(messages, Some(text)) && !AssistantError(m)
    ensures Captures(messages + [m], Some(text))
  {
    var all := messages + [m];
    var i :| (LastAssistantError(messages, i) || FirstResultError(messages, i)) && text == ErrorText(messages[i]);
    assert all[|messages|] == m;
    assert forall j :: 0 <= j < |messages| ==> all[j] == messages[j];
    assert LastAssistantError(all, i) || FirstResultError(all, i);
  }

  lemma CapturesNext(messages: seq<Message>, m: Message, before: Option<string>)
    requires Captures(messages, before)
    ensures Captures(messages + [m], NextError(before, m))
  {
    if AssistantError(m) {
      AssistantErrorCounts(messages, m);
    } else if before.None? {
      FirstErrorCounts(messages, m);
    } else {
      EarlierErrorCounts(messages, m, before.value);
    }
  }

  // ----- The fold -----

  /** One round of the loop. */
  method Gather(m: Message, parts: seq<string>, apiError: Option<string>)
    returns (parts': seq<string>, apiError': Option<string>)
    requires apiError.Some? ==> apiError.value != ""
    ensures parts' == parts + NewTexts(m) && apiError' == NextError(apiError, m)
    ensures apiError'.Some? ==> apiError'.value != ""
  {
    parts', apiError' := parts, apiError;
    match m
    case Assistant(error, content) =>
      if Present(error) {
        var detail := Text.Strip(Join(" ", BlockTexts(content)));
        var name := if error.value in API_ERROR_LABELS then API_ERROR_LABELS[error.value] else error.value;
        apiError' := Some(if detail != "" then name + ": " + detail else name);
      } else {
        parts' := AppendTexts(parts, content);
      }
    case ResultMessage(isError, result) =>
      if isError && !Present(apiError) {
        apiError' := Some(if Present(result) then result.value else "Claude Code returned an error");
      }
    case OtherMessage =>
  }

  lemma TextsNext(messages: seq<Message>, m: Message)
    ensures Texts(messages + [m]) == Texts(messages) + NewTexts(m)
  {
    assert (messages + [m])[..|messages|] == messages;
  }

  /** Ok is the returned text, Err the text of the `ClaudeCodeError`. */
  method RunClaudeCode(messages: seq<Message>, ending: Ending, stderrLines: seq<string>, timeoutSeconds: nat)
    returns (r: Result<string, string>)
    ensures ending.TimedOut? ==> r == Err("Claude Code timed out after " + Text.Decimal(timeoutSeconds) + "s")
    ensures !ending.TimedOut? && !NoError(messages) ==> r.Err? && Captures(messages, Some(r.error))
    ensures ending.Clean? ==> (r.Ok? <==> NoError(messages))
    ensures ending.Clean? && NoError(messages) ==> r == Ok(Text.Strip(Join("", Texts(messages))))
    ensures ending.Crashed? && NoError(messages) ==>
              r == Err(if ending.cliMissing then "Claude Code CLI not found: " + ending.what
                       else "Claude Code failed: " + Detail(stderrLines, ending.what))
  {
    var parts: seq<string> := [];
    var apiError: Option<string> := None;
    for i := 0 to |messages|
      invariant parts == Texts(messages[..i])
      invariant Captures(messages[..i], apiError) && (apiError.Some? ==> apiError.value != "")
    {
      assert messages[..i + 1] == messages[..i] + [messages[i]];
      TextsNext(messages[..i], messages[i]);
      CapturesNext(messages[..i], messages[i], apiError);
      parts, apiError := Gather(messages[i], parts, apiError);
    }
    assert messages[..|messages|] == messages;
    if apiError.Some? {
      CaptureMeansError(messages, apiError.value);
    }
    r := Conclude(apiError, parts, ending, stderrLines, timeoutSeconds);
  }

  /** The handlers of the try statement, and what follows it. */
  method Conclude(apiError: Option<string>, parts: seq<string>, ending: Ending, stderrLines: seq<string>,
                  timeoutSeconds: nat) returns (r: Result<string, string>)
    ensures ending.TimedOut? ==> r == Err("Claude Code timed out after " + Text.Decimal(timeoutSeconds) + "s")
    ensures !ending.TimedOut? && Present(apiError) ==> r == Err(apiError.value)
    ensures ending.Clean? && !Present(apiError) ==> r == Ok(Text.Strip(Join("", parts)))
    ensures ending.Crashed? && !Present(apiError) ==>
              r == Err(if ending.cliMissing then "Claude Code CLI not found: " + ending.what
                       else "Claude Code failed: " + Detail(stderrLines, ending.what))
  {
    match ending
    case TimedOut =>
      return Err("Claude Code timed out after " + Text.Decimal(timeoutSeconds) + "s");
    case Crashed(cliMissing, what) =>
      if Present(apiError) { return Err(apiError.value); }
      var stderrOutput := Text.Strip(Join("", stderrLines));
      var detail := if stderrOutput != "" then stderrOutput else what;
      if cliMissing { return Err("Claude Code CLI not found: " + what); }
      return Err("Claude Code failed: " + detail);
    case Clean =>
      if Present(apiError) { return Err(apiError.value); }
      return Ok(Text.Strip(Join("", parts)));
  }

  function Detail(stderrLines: seq<string>, what: string): string {
    var stderrOutput := Text.Strip(Join("", stderrLines));
    if stderrOutput != "" then stderrOutput else what
  }

  lemma CaptureMeansError(messages: seq<Message>, text: string)
    requires Captures(messages, Some(text))
    ensures !NoError(messages)
  {
    var i :| (LastAssistantError(messages, i) || FirstResultError(messages, i)) && text == ErrorText(messages[i]);
    assert messages[i] in messages;
  }

  method AppendTexts(parts: seq<string>, content: seq<Block>) returns (all: seq<string>)
    ensures all == parts + BlockTexts(content)
  {
    all := parts;
    for k := 0 to |content|
      invariant all == parts + BlockTexts(content[..k])
    {
      assert content[..k + 1][..k] == content[..k];
      if content[k].TextBlock? {
        all := all + [content[k].text];
      }
    }
    assert content[..|content|] == content;
  }

  // ----- The words used -----

  lemma {:induction false} JoinAppends(sep: string, parts: seq<string>, p: string)
    ensures Join(sep, [p]) == p
    ensures parts != [] ==> Join(sep, parts + [p]) == Join(sep, parts) + sep + p
  {
    if |parts| == 1 {
      assert (parts + [p])[1..] == [p];
    } else if |parts| > 1 {
      assert (parts + [p])[1..] == parts[1..] + [p];
      JoinAppends(sep, parts[1..], p);
    }
  }

  lemma {:induction false} BlockTextsAppend(left: seq<Block>, right: seq<Block>)
    ensures BlockTexts(left + right) == BlockTexts(left) + BlockTexts(right)
  {
    if right == [] {
      assert left + right == left;
    } else {
      assert (left + right)[..|left + right| - 1] == left + right[..|right| - 1];
      BlockTextsAppend(left, right[..|right| - 1]);
    }
  }

  lemma BlockTextsOfOne(b: Block)
    ensures BlockTexts([b]) == match b case TextBlock(text) => [text] case OtherBlock => []
  {
    assert [b][..0] == [];
  }

  lemma {:induction false} JoinNothingAppends(left: seq<string>, right: seq<string>)
    ensures Join("", left + right) == Join("", left) + Join("", right)
  {
    if right == [] {
      assert left + right == left;
    } else {
      var pre, last := right[..|right| - 1], right[|right| - 1];
      assert left + right == (left + pre) + [last] && right == pre + [last];
      JoinNothingAppends(left, pre);
      JoinAppends("", left + pre, last);
      JoinAppends("", pre, last);
      assert left + pre == [] ==> left == [] && pre == [];
    }
  }

  /** What a clean stream returns is the texts of its blocks, in order, with nothing between them. */
  lemma OutputGrows(messages: seq<Message>, content: seq<Block>, text: string)
    ensures Join("", Texts([])) == ""
    ensures var m := Assistant(None, content + [TextBlock(text)]);
      Join("", Texts(messages + [m])) == Join("", Texts(messages + [Assistant(None, content)])) + text
  {
    TextsNext(messages, Assistant(None, content + [TextBlock(text)]));
    TextsNext(messages, Assistant(None, content));
    BlockTextsAppend(content, [TextBlock(text)]);
    BlockTextsOfOne(TextBlock(text));
    JoinAppends("", [], text);
    JoinNothingAppends(Texts(messages + [Assistant(None, content)]), [text]);
    assert Texts(messages) + (BlockTexts(content) + [text]) == Texts(messages) + BlockTexts(content) + [text];
  }

  lemma NothingNew(messages: seq<Message>, m: Message)
    requires NewTexts(m) == []
    ensures Texts(messages + [m]) == Texts(messages)
  {
    TextsNext(messages, m);
  }

  /** Messages that are not the assistant's add nothing. */
  lemma OutputIgnores(messages: seq<Message>, m: Message)
    requires !m.Assistant? || m.content == [] || AssistantError(m)
    ensures Texts(messages + [m]) == Texts(messages)
  {
    NothingNew(messages, m);
  }

  /** Neither do blocks that are not text. */
  lemma OtherBlocksAddNothing(content: seq<Block>)
    ensures BlockTexts(content + [OtherBlock]) == BlockTexts(content)
  {
    BlockTextsAppend(content, [OtherBlock]);
    BlockTextsOfOne(OtherBlock);
  }

  /** Which messages carry an error: an assistant message with a nonempty code, and a result marked as one. */
  lemma ErrorsAre(m: Message)
    ensures NoError([m]) <==>
              match m
              case Assistant(error, _) => error == None || error == Some("")
              case ResultMessage(isError, _) => !isError
              case OtherMessage => true
  {
    assert m in [m];
  }

  /** The label of an error code; other codes stand for themselves. */
  function Labelled(code: string): string {
    if code == "billing_error" then "API billing error"
    else if code == "authentication_failed" then "API authentication failed"
    else if code == "rate_limit" then "API rate limit exceeded"
    else if code == "invalid_request" then "Invalid API request"
    else if code == "server_error" then "Anthropic API server error"
    else code
  }

  /** What an error is reported as: the label, and after a colon the stripped texts of the message joined by
      spaces, if there is any; or the text of the result, if there is any. */
  lemma ErrorTextIs(m: Message)
    requires AssistantError(m) || ResultError(m)
    ensures m.Assistant? ==>
              var detail := Text.Strip(Join(" ", BlockTexts(m.content)));
              ErrorText(m) == if detail == "" then Labelled(m.error.value) else Labelled(m.error.value) + ": " + detail
    ensures m.ResultMessage? ==>
              ErrorText(m) == if m.result == None || m.result == Some("") then "Claude Code returned an error" else m.result.value
  {
  }

  /** A crash without a captured error is reported with what was written to stderr, or else with its own text. */
  lemma DetailIs(stderrLines: seq<string>, what: string)
    ensures (forall c :: c in Join("", stderrLines) ==> Text.IsSpace(c)) ==> Detail(stderrLines, what) == what
    ensures Text.Strip(Join("", stderrLines)) != "" ==> Detail(stderrLines, what) == Text.Strip(Join("", stderrLines))
  {
    if forall c :: c in Join("", stderrLines) ==> Text.IsSpace(c) {
      Text.TrimAll(Text.IsSpace, Join("", stderrLines));
    }
  }
}
