/** Chat framing for the language model: a tokenized message is framed with
    its role token, a line break and the end-of-sequence token; the
    conversation is a token list that grows by each framed message, by the
    assistant-turn prefix and by the generated reply, which is consumed up to
    and including the first end-of-sequence token. The tokenizer, the
    generator and the detokenizer are parameters. */
module ChatTokens {
  import opened Wrappers
  import opened Sequences

  const SystemToken: int := 1587
  const UserToken: int := 2188
  const BotToken: int := 12435
  const LinebreakToken: int := 13

  /** The role table: role name to role token. */
  const RoleTokens: map<string, int> := map["user" := UserToken, "bot" := BotToken, "system" := SystemToken]

  datatype ChatError = UnknownRole(role: string)

  /** Different roles are framed with different tokens. */
  lemma RoleTokensDistinct(a: string, b: string)
    requires a in RoleTokens && b in RoleTokens && a != b
    ensures RoleTokens[a] != RoleTokens[b]
  {
  }

  /** Python's `list.insert` at a non-negative position: a position past the
      end appends. */
  function PyInsert(s: seq<int>, i: nat, x: int): (r: seq<int>)
    ensures |r| == |s| + 1
    ensures r[if i <= |s| then i else |s|] == x
    ensures var j := if i <= |s| then i else |s|; r[..j] == s[..j] && r[j + 1..] == s[j..]
  {
    var j := if i <= |s| then i else |s|;
    s[..j] + [x] + s[j..]
  }

  /** The framed message, as the two inserts and the append build it. */
  function MessageTokens(t: seq<int>, roleToken: int, eos: int): (m: seq<int>)
    ensures |m| == |t| + 3
  {
    PyInsert(PyInsert(t, 1, roleToken), 2, LinebreakToken) + [eos]
  }

  /** The frame in closed form: the role token and the line break follow the
      first token (the tokenizer's begin-of-sequence token), the rest of the
      message follows them, and the end-of-sequence token closes it; an empty
      tokenization yields the three frame tokens alone. */
  lemma MessageTokensShape(t: seq<int>, roleToken: int, eos: int)
    ensures var m := MessageTokens(t, roleToken, eos);
            && |m| == |t| + 3
            && m == if t == [] then [roleToken, LinebreakToken, eos]
                    else [t[0], roleToken, LinebreakToken] + t[1..] + [eos]
  {
    if t != [] {
      var once := PyInsert(t, 1, roleToken);
      assert once == [t[0], roleToken] + t[1..];
      assert PyInsert(once, 2, LinebreakToken) == [t[0], roleToken, LinebreakToken] + t[1..];
    }
  }

  /** The message inside a frame. */
  function MessageContent(m: seq<int>): seq<int>
    requires |m| >= 3
  {
    if |m| == 3 then [] else [m[0]] + m[3..|m| - 1]
  }

  /** The role token of a frame. */
  function MessageRole(m: seq<int>): int
    requires |m| >= 3
  {
    if |m| == 3 then m[0] else m[1]
  }

  /** Framing loses nothing: the message, the role and the end token are
      read back from the frame. */
  lemma FramingRoundTrip(t: seq<int>, roleToken: int, eos: int)
    ensures var m := MessageTokens(t, roleToken, eos);
            && |m| >= 3
            && MessageContent(m) == t && MessageRole(m) == roleToken && m[|m| - 1] == eos
  {
    MessageTokensShape(t, roleToken, eos);
    if t != [] {
      var m := MessageTokens(t, roleToken, eos);
      assert m[3..|m| - 1] == t[1..];
      assert [t[0]] + t[1..] == t;
    }
  }

  /** Two frames are equal only for the same message and role. */
  lemma MessageTokensInjective(t1: seq<int>, r1: int, t2: seq<int>, r2: int, eos: int)
    requires MessageTokens(t1, r1, eos) == MessageTokens(t2, r2, eos)
    ensures t1 == t2 && r1 == r2
  {
    FramingRoundTrip(t1, r1, eos);
    FramingRoundTrip(t2, r2, eos);
  }

  /** `get_message_tokens`: look up the role, insert its token after the
      first token, insert the line break after it, append the end token. */
  method GetMessageTokens(tokenized: seq<int>, role: string, eos: int) returns (r: Result<seq<int>, ChatError>)
    ensures role in RoleTokens ==> r == Success(MessageTokens(tokenized, RoleTokens[role], eos))
    ensures role !in RoleTokens ==> r == Failure(UnknownRole(role))
  {
    if role !in RoleTokens {
      return Failure(UnknownRole(role));
    }
    var messageTokens := tokenized;
    messageTokens := PyInsert(messageTokens, 1, RoleTokens[role]);
    messageTokens := PyInsert(messageTokens, 2, LinebreakToken);
    messageTokens := messageTokens + [eos];
    return Success(messageTokens);
  }

  /** `get_system_tokens`: the system prompt framed with the system role. */
  method GetSystemTokens(systemPrompt: string, tokenize: string -> seq<int>, eos: int) returns (r: seq<int>)
    ensures r == MessageTokens(tokenize(systemPrompt), SystemToken, eos)
  {
    var framed := GetMessageTokens(tokenize(systemPrompt), "system", eos);
    r := framed.value;
  }

  /** The tokens that open the assistant's turn. */
  function AssistantPrefix(bos: int): seq<int>
  {
    [bos, BotToken, LinebreakToken]
  }

  /** The part of a generated stream the loop consumes: everything up to and
      including the first end token, or the whole stream when it has none. */
  function TakeThroughEos(stream: seq<int>, eos: int): seq<int>
  {
    if stream == [] then []
    else if stream[0] == eos then [eos]
    else [stream[0]] + TakeThroughEos(stream[1..], eos)
  }

  /** The consumed part is a prefix of the stream with no end token before
      its last position; it ends with the end token, or it is the whole
      stream, and it does end with the end token when the stream holds one. */
  lemma {:induction false} TakeThroughEosSpec(stream: seq<int>, eos: int)
    ensures var r := TakeThroughEos(stream, eos);
            && r <= stream
            && (forall i :: 0 <= i < |r| - 1 ==> r[i] != eos)
            && (r == stream || (r != [] && r[|r| - 1] == eos))
            && (eos in stream ==> r != [] && r[|r| - 1] == eos)
  {
    if stream != [] && stream[0] != eos {
      TakeThroughEosSpec(stream[1..], eos);
      var rest := TakeThroughEos(stream[1..], eos);
      assert TakeThroughEos(stream, eos) == [stream[0]] + rest;
      assert stream == [stream[0]] + stream[1..];
      assert eos in stream ==> eos in stream[1..];
    }
  }

  /** The first end token closes the consumed part. */
  lemma {:induction false} TakeThroughFirstEos(stream: seq<int>, eos: int, i: nat)
    requires i < |stream| && stream[i] == eos
    requires forall j :: 0 <= j < i ==> stream[j] != eos
    ensures TakeThroughEos(stream, eos) == stream[..i + 1]
  {
    if i > 0 {
      TakeThroughFirstEos(stream[1..], eos, i - 1);
      assert stream[..i + 1] == [stream[0]] + stream[1..][..i];
    }
  }

  /** A stream without an end token is consumed whole. */
  lemma {:induction false} TakeThroughNoEos(stream: seq<int>, eos: int)
    requires forall j :: 0 <= j < |stream| ==> stream[j] != eos
    ensures TakeThroughEos(stream, eos) == stream
  {
    if stream != [] {
      TakeThroughNoEos(stream[1..], eos);
      assert stream == [stream[0]] + stream[1..];
    }
  }

  /** The detokenized text of consumed tokens. */
  function TextOf(tokens: seq<int>, piece: int -> string): string
  {
    Concat(Map(tokens, piece))
  }

  /** One generation loop: every token is detokenized onto the text and
      appended to the context, and the loop stops after the end token. */
  method ConsumeUntilEos(tokens: seq<int>, stream: seq<int>, eos: int, piece: int -> string)
    returns (text: string, context: seq<int>)
    ensures context == tokens + TakeThroughEos(stream, eos)
    ensures text == TextOf(TakeThroughEos(stream, eos), piece)
  {
    text := "";
    context := tokens;
    var i := 0;
    while i < |stream|
      invariant 0 <= i <= |stream|
      invariant forall j :: 0 <= j < i ==> stream[j] != eos
      invariant context == tokens + stream[..i]
      invariant text == TextOf(stream[..i], piece)
    {
      var token := stream[i];
      ConcatMapSnoc(stream, piece, i);
      assert stream[..i + 1] == stream[..i] + [token];
      text := text + piece(token);
      context := context + [token];
      if token == eos {
        TakeThroughFirstEos(stream, eos, i);
        return;
      }
      i := i + 1;
    }
    assert stream[..i] == stream;
    TakeThroughNoEos(stream, eos);
  }

  /** The context of the first exchange: system frame, user frame, assistant prefix. */
  function FirstPrompt(systemPrompt: string, content: string, tokenize: string -> seq<int>, bos: int, eos: int): seq<int>
  {
    MessageTokens(tokenize(systemPrompt), SystemToken, eos)
      + MessageTokens(tokenize(content), UserToken, eos)
      + AssistantPrefix(bos)
  }

  /** `interact`: one user message, one reply. */
  method Interact(userPrompt: string, systemPrompt: string, tokenize: string -> seq<int>, bos: int, eos: int,
                  generate: seq<int> -> seq<int>, piece: int -> string)
    returns (tokenStr: string)
    ensures var prompt := FirstPrompt(systemPrompt, userPrompt, tokenize, bos, eos);
            tokenStr == TextOf(TakeThroughEos(generate(prompt), eos), piece)
  {
    var tokens := GetSystemTokens(systemPrompt, tokenize, eos);
    var message := GetMessageTokens(tokenize(userPrompt), "user", eos);
    var roleTokens := [bos, BotToken, LinebreakToken];
    tokens := tokens + (message.value + roleTokens);
    assert tokens == FirstPrompt(systemPrompt, userPrompt, tokenize, bos, eos);
    var context;
    tokenStr, context := ConsumeUntilEos(tokens, generate(tokens), eos, piece);
  }

  /** `pipeline`: the recognised text with the extraction prompt gives the
      JSON reply; the conversation so far, the follow-up prompt and a new
      assistant prefix give the rules reply. */
  method Pipeline(ocrText: string, systemPrompt: string, textToJsonPrompt: string, jsonToRulePrompt: string,
                  tokenize: string -> seq<int>, bos: int, eos: int,
                  generate: seq<int> -> seq<int>, piece: int -> string)
    returns (rules: string, jsonStr: string)
    ensures var first := FirstPrompt(systemPrompt, textToJsonPrompt + ocrText, tokenize, bos, eos);
            var reply := TakeThroughEos(generate(first), eos);
            var second := first + reply + MessageTokens(tokenize(jsonToRulePrompt), UserToken, eos) + AssistantPrefix(bos);
            && jsonStr == TextOf(reply, piece)
            && rules == TextOf(TakeThroughEos(generate(second), eos), piece)
  {
    var tokens := GetSystemTokens(systemPrompt, tokenize, eos);
    var message := GetMessageTokens(tokenize(textToJsonPrompt + ocrText), "user", eos);
    var roleTokens := [bos, BotToken, LinebreakToken];
    tokens := tokens + (message.value + roleTokens);
    ghost var first := FirstPrompt(systemPrompt, textToJsonPrompt + ocrText, tokenize, bos, eos);
    assert tokens == first;
    jsonStr, tokens := ConsumeUntilEos(tokens, generate(tokens), eos, piece);
    ghost var reply := TakeThroughEos(generate(first), eos);
    var followUp := GetMessageTokens(tokenize(jsonToRulePrompt), "user", eos);
    assert followUp.value == MessageTokens(tokenize(jsonToRulePrompt), UserToken, eos);
    tokens := tokens + followUp.value;
    tokens := tokens + roleTokens;
    assert tokens == first + reply + MessageTokens(tokenize(jsonToRulePrompt), UserToken, eos) + AssistantPrefix(bos);
    rules, tokens := ConsumeUntilEos(tokens, generate(tokens), eos, piece);
  }
}
