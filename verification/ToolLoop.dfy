/** The diagnosis loop: post the conversation to the model, run the tools it asks
    for, post again, within a budget; and the rules that say which tools exist. */
module ToolLoop {
  import opened Models
  import opened Collections
  import Text

  // ---------------------------------------------------------------------
  // Which tools are allowed
  // ---------------------------------------------------------------------

  datatype Rule = Rule(tool: string, action: string)

  const TOOL_NAMES := [
    "noobboard_current_status", "noobboard_server_status", "noobboard_network_status",
    "noobboard_app_status", "noobboard_app_logs", "noobboard_app_history"]

  predicate IsToolName(name: string) {
    name in TOOL_NAMES
  }

  predicate Complete(r: Rule) {
    Text.TrimSpace(r.tool) != "" && Text.TrimSpace(r.action) != ""
  }

  /** A rule speaks of a tool by name, or of every known tool by a star. */
  predicate Mentions(r: Rule, name: string) {
    Complete(r) && (Text.TrimSpace(r.tool) == name || (Text.TrimSpace(r.tool) == "*" && IsToolName(name)))
  }

  predicate Allows(r: Rule) {
    Text.TrimSpace(r.action) == "allow"
  }

  /** The last rule that mentions a tool decides. */
  function LastWord(rules: seq<Rule>, name: string): bool {
    if rules == [] then false
    else
      var last := rules[|rules| - 1];
      if Mentions(last, name) then Allows(last) else LastWord(rules[..|rules| - 1], name)
  }

  predicate Says(allowed: map<string, bool>, name: string) {
    name in allowed && allowed[name]
  }

  /** A rule for a tool that is literally named "*" cannot be told from the star. */
  method AllowedAgentTools(rules: seq<Rule>) returns (allowed: map<string, bool>)
    ensures forall name :: name != "*" ==> (Says(allowed, name) <==> LastWord(rules, name))
  {
    allowed := map[];
    for i := 0 to |rules|
      invariant forall name :: name != "*" ==> (Says(allowed, name) <==> LastWord(rules[..i], name))
    {
      assert rules[..i + 1][..i] == rules[..i];
      var tool := Text.TrimSpace(rules[i].tool);
      var action := Text.TrimSpace(rules[i].action);
      if tool == "" || action == "" {
        continue;
      }
      if tool == "*" {
        allowed := AllowEvery(allowed, action == "allow");
        continue;
      }
      allowed := allowed[tool := action == "allow"];
    }
    assert rules[..|rules|] == rules;
  }

  method AllowEvery(allowed: map<string, bool>, value: bool) returns (after: map<string, bool>)
    ensures forall name :: name in after <==> name in allowed || IsToolName(name)
    ensures forall name :: name in after ==> after[name] == if IsToolName(name) then value else allowed[name]
  {
    after := allowed;
    for i := 0 to |TOOL_NAMES|
      invariant forall name :: name in after <==> name in allowed || name in TOOL_NAMES[..i]
      invariant forall name :: name in after ==> after[name] == if name in TOOL_NAMES[..i] then value else allowed[name]
    {
      after := after[TOOL_NAMES[i] := value];
    }
  }

  /** The parts of a request that decide about tools. */
  datatype Request = Request(
    toolsEnabled: bool,
    adminRecipient: bool,
    liveSnapshot: bool,
    appLogs: bool,
    appHistory: bool,
    rules: seq<Rule>,
    maxToolCalls: int)

  predicate Offered(r: Request, name: string) {
    && r.toolsEnabled && r.adminRecipient && r.liveSnapshot
    && IsToolName(name) && LastWord(r.rules, name)
    && (name == "noobboard_app_logs" ==> r.appLogs)
    && (name == "noobboard_app_history" ==> r.appHistory)
  }

  function OfferedTools(r: Request): set<string> {
    set name | name in TOOL_NAMES && Offered(r, name)
  }

  method AgentToolsForRequest(r: Request) returns (tools: set<string>)
    ensures tools == OfferedTools(r)
  {
    if !r.toolsEnabled || !r.adminRecipient || !r.liveSnapshot {
      return {};
    }
    var allowed := AllowedAgentTools(r.rules);
    tools := {};
    for i := 0 to |TOOL_NAMES|
      invariant forall name :: name in tools <==> Offered(r, name) && name in TOOL_NAMES[..i]
    {
      var name := TOOL_NAMES[i];
      assert IsToolName(name) && name != "*";
      var available := (name != "noobboard_app_logs" || r.appLogs) && (name != "noobboard_app_history" || r.appHistory);
      if available && name in allowed && allowed[name] {
        tools := tools + {name};
      }
    }
  }

  // ---------------------------------------------------------------------
  // The conversation
  // ---------------------------------------------------------------------

  /** A function call item as decoded: absent fields are None. A ToolOutput is one
      the loop itself appended; an item of that type sent by the model means
      nothing to the loop and is an OtherItem. */
  datatype Item =
    | Prompt
    | FunctionCall(callId: Option<string>, name: Option<string>, arguments: string, argumentsValid: bool)
    | ToolOutput(outputOf: string, text: string)
    | OtherItem

  /** What the model can send. */
  type Received = x: Item | !x.ToolOutput? witness OtherItem

  datatype Call = Call(id: string, name: string, arguments: string)

  /** Go prints an absent field as "<nil>". */
  function Printed(field: Option<string>): string {
    Text.TrimSpace(if field.Some? then field.value else "<nil>")
  }

  predicate IsCall(x: Item) {
    x.FunctionCall? && Printed(x.callId) != "" && Printed(x.name) != ""
  }

  function CallOf(x: Item): Call
    requires x.FunctionCall?
  {
    Call(Printed(x.callId), Printed(x.name), x.arguments)
  }

  /** The calls of a reply in order; None when one has invalid arguments. */
  function CallsIn(output: seq<Item>): (r: Option<seq<Call>>)
    ensures r.Some? ==> |r.value| <= |output|
  {
    if output == [] then Some([])
    else
      var last := output[|output| - 1];
      var before := CallsIn(output[..|output| - 1]);
      if before.None? || !IsCall(last) then before
      else if !last.argumentsValid then None
      else Some(before.value + [CallOf(last)])
  }

  datatype Reply = PostFailed | Replied(output: seq<Received>)
  datatype Input = Plain | Conversation(items: seq<Item>)

  datatype Ending = Diagnosed(reply: Reply) | Failed(error: Error)
  datatype Error = NotPosted | BadArguments | ToolsDisabled | OverLimit(wanted: nat) | NotAllowed(name: string) | ToolFailed(name: string)

  /** The world: the n-th post's reply and the n-th execution's result, which may
      be anything. */
  datatype World = World(model: (nat, Input) -> Reply, execute: (nat, string, string) -> Option<string>)

  datatype State = State(conversation: seq<Item>, posts: nat, executed: seq<Call>)

  function Limit(maxToolCalls: int): nat {
    if maxToolCalls <= 0 then 1 else maxToolCalls
  }

  /** Runs calls in order until one is not allowed or fails. */
  function Executed(s: State, calls: seq<Call>, tools: set<string>, w: World): (State, Option<Error>)
    decreases |calls|
  {
    if calls == [] then (s, None)
    else
      var c := calls[0];
      if c.name !in tools then (s, Some(NotAllowed(c.name)))
      else
        var result := w.execute(|s.executed|, c.name, c.arguments);
        var ran := s.(executed := s.executed + [c]);
        if result.None? then (ran, Some(ToolFailed(c.name)))
        else Executed(ran.(conversation := ran.conversation + [ToolOutput(c.id, result.value)]), calls[1..], tools, w)
  }

  lemma {:induction false} ExecutedCounts(s: State, calls: seq<Call>, tools: set<string>, w: World)
    ensures var (t, error) := Executed(s, calls, tools, w);
      && t.posts == s.posts
      && s.executed <= t.executed <= s.executed + calls
      && (error.None? ==> t.executed == s.executed + calls)
      && (forall i :: |s.executed| <= i < |t.executed| ==> t.executed[i].name in tools)
    decreases |calls|
  {
    if calls != [] {
      var c := calls[0];
      if c.name in tools {
        var result := w.execute(|s.executed|, c.name, c.arguments);
        if result.Some? {
          ExecutedCounts(State(s.conversation + [ToolOutput(c.id, result.value)], s.posts, s.executed + [c]), calls[1..], tools, w);
          assert s.executed + [c] + calls[1..] == s.executed + calls;
        }
        assert s.executed + [c] <= s.executed + calls;
      }
    }
  }

  /** How a reply ends the loop before any tool runs, if it does. */
  function Verdict(s: State, reply: Reply, tools: set<string>, limit: nat): Option<Ending> {
    if reply.PostFailed? then Some(Failed(NotPosted))
    else
      var calls := CallsIn(reply.output);
      if calls.None? then Some(Failed(BadArguments))
      else if calls.value == [] then Some(Diagnosed(reply))
      else if tools == {} then Some(Failed(ToolsDisabled))
      else if |s.executed| + |calls.value| > limit then Some(Failed(OverLimit(|s.executed| + |calls.value|)))
      else None
  }

  /** The tool calls of a reply that the loop goes on with. */
  function Wanted(s: State, reply: Reply, tools: set<string>, limit: nat): (r: seq<Call>)
    requires Verdict(s, reply, tools, limit).None?
    ensures r != [] && |s.executed| + |r| <= limit
  {
    CallsIn(reply.output).value
  }

  /** The state in which they are executed: the post is counted, the reply heard. */
  function Heard(s: State, reply: Reply): State
    requires reply.Replied?
  {
    State(s.conversation + reply.output, s.posts + 1, s.executed)
  }

  /** The loop, from a state and the input of the next post. */
  function Converse(s: State, input: Input, tools: set<string>, limit: nat, w: World): (State, Ending)
    decreases limit - |s.executed|
  {
    var reply := w.model(s.posts, input);
    var verdict := Verdict(s, reply, tools, limit);
    if verdict.Some? then (s.(posts := s.posts + 1), verdict.value)
    else
      var calls := Wanted(s, reply, tools, limit);
      var (after, error) := Executed(Heard(s, reply), calls, tools, w);
      ExecutedCounts(Heard(s, reply), calls, tools, w);
      if error.Some? then (after, Failed(error.value))
      else Converse(after, Conversation(after.conversation), tools, limit, w)
  }

  function Start(inputAsList: bool, tools: set<string>): (State, Input) {
    if inputAsList || tools != {} then (State([Prompt], 0, []), Conversation([Prompt]))
    else (State([], 0, []), Plain)
  }

  method Diagnose(r: Request, inputAsList: bool, w: World) returns (end: State, ending: Ending)
    ensures var (s, input) := Start(inputAsList, OfferedTools(r));
      (end, ending) == Converse(s, input, OfferedTools(r), Limit(r.maxToolCalls), w)
  {
    var tools := AgentToolsForRequest(r);
    var conversation, input := [], Plain;
    if inputAsList || tools != {} {
      conversation := [Prompt];
      input := Conversation(conversation);
    }
    var limit := r.maxToolCalls;
    if limit <= 0 {
      limit := 1;
    }
    var used, posts, executed := 0, 0, [];
    ghost var goal := Converse(State(conversation, 0, []), input, tools, limit, w);
    while true
      invariant used == |executed| <= limit
      invariant goal == Converse(State(conversation, posts, executed), input, tools, limit, w)
      decreases limit - used
    {
      ghost var s := State(conversation, posts, executed);
      var reply := w.model(posts, input);
      posts := posts + 1;
      var verdict, calls := ReadReply(s, used, reply, tools, limit);
      if verdict.Some? {
        return State(conversation, posts, executed), verdict.value;
      }
      used := used + |calls|;
      conversation := conversation + reply.output;
      ExecutedCounts(Heard(s, reply), calls, tools, w);
      var error;
      conversation, executed, error := RunCalls(Heard(s, reply), conversation, executed, calls, tools, w);
      if error.Some? {
        return State(conversation, posts, executed), Failed(error.value);
      }
      input := Conversation(conversation);
    }
  }

  /** What a reply asks for, unless it ends the loop. */
  method ReadReply(ghost s: State, used: nat, reply: Reply, tools: set<string>, limit: nat)
    returns (verdict: Option<Ending>, calls: seq<Call>)
    requires used == |s.executed|
    ensures verdict == Verdict(s, reply, tools, limit)
    ensures verdict.None? ==> calls == Wanted(s, reply, tools, limit)
  {
    calls := [];
    if reply.PostFailed? {
      return Some(Failed(NotPosted)), [];
    }
    var parsed := ParseCalls(reply.output);
    if parsed.None? {
      return Some(Failed(BadArguments)), [];
    }
    calls := parsed.value;
    if calls == [] {
      return Some(Diagnosed(reply)), [];
    }
    if tools == {} {
      return Some(Failed(ToolsDisabled)), [];
    }
    if used + |calls| > limit {
      return Some(Failed(OverLimit(used + |calls|))), [];
    }
    verdict := None;
  }

  /** parseAgentToolCalls: one pass over the reply's items. */
  method ParseCalls(output: seq<Item>) returns (calls: Option<seq<Call>>)
    ensures calls == CallsIn(output)
  {
    var found := [];
    for i := 0 to |output|
      invariant CallsIn(output[..i]) == Some(found)
    {
      CallsOfOneMore(output, i);
      if !IsCall(output[i]) {
        continue;
      }
      if !output[i].argumentsValid {
        NoCallsAfterBad(output, i + 1);
        return None;
      }
      found := found + [CallOf(output[i])];
    }
    assert output[..|output|] == output;
    calls := Some(found);
  }

  lemma CallsOfOneMore(output: seq<Item>, i: nat)
    requires i < |output|
    ensures var before := CallsIn(output[..i]);
      CallsIn(output[..i + 1]) ==
        if before.None? || !IsCall(output[i]) then before
        else if !output[i].argumentsValid then None
        else Some(before.value + [CallOf(output[i])])
  {
    Snoc(output, i);
  }

  lemma {:induction false} NoCallsAfterBad(output: seq<Item>, i: nat)
    requires i <= |output| && CallsIn(output[..i]).None?
    ensures CallsIn(output).None?
    decreases |output|
  {
    if i < |output| {
      var before := output[..|output| - 1];
      assert before[..i] == output[..i];
      NoCallsAfterBad(before, i);
    } else {
      assert output[..i] == output;
    }
  }

  /** The inner loop over one reply's calls. */
  method RunCalls(ghost s: State, conversation: seq<Item>, executed: seq<Call>, calls: seq<Call>, tools: set<string>, w: World)
    returns (conversation': seq<Item>, executed': seq<Call>, error: Option<Error>)
    requires s.conversation == conversation && s.executed == executed
    ensures (State(conversation', s.posts, executed'), error) == Executed(s, calls, tools, w)
  {
    conversation', executed', error := conversation, executed, None;
    assert calls[0..] == calls;
    for i := 0 to |calls|
      invariant error == None
      invariant Executed(s, calls, tools, w) == Executed(State(conversation', s.posts, executed'), calls[i..], tools, w)
    {
      assert calls[i..][1..] == calls[i + 1..];
      var call := calls[i];
      if call.name !in tools {
        error := Some(NotAllowed(call.name));
        return;
      }
      var result := w.execute(|executed'|, call.name, call.arguments);
      executed' := executed' + [call];
      if result.None? {
        error := Some(ToolFailed(call.name));
        return;
      }
      conversation' := conversation' + [ToolOutput(call.id, result.value)];
    }
  }

  // ---------------------------------------------------------------------
  // What the budget and the rules guarantee
  // ---------------------------------------------------------------------

  /** Whatever the model answers: at most limit tools are executed, at most
      limit + 1 posts are made, and only offered tools run. */
  lemma {:induction false} BudgetHolds(s: State, input: Input, tools: set<string>, limit: nat, w: World)
    requires |s.executed| <= limit && s.posts <= |s.executed|
    requires forall i :: 0 <= i < |s.executed| ==> s.executed[i].name in tools
    ensures var (t, _) := Converse(s, input, tools, limit, w);
      && |t.executed| <= limit && t.posts <= limit + 1
      && forall i :: 0 <= i < |t.executed| ==> t.executed[i].name in tools
    decreases limit - |s.executed|
  {
    var reply := w.model(s.posts, input);
    if Verdict(s, reply, tools, limit).None? {
      var calls := Wanted(s, reply, tools, limit);
      ExecutedCounts(Heard(s, reply), calls, tools, w);
      var (after, error) := Executed(Heard(s, reply), calls, tools, w);
      if error.None? {
        BudgetHolds(after, Conversation(after.conversation), tools, limit, w);
      }
    }
  }

  /** Every tool output answers a call that stands earlier in the conversation. */
  ghost predicate OutputsAnswer(items: seq<Item>) {
    forall j :: 0 <= j < |items| && items[j].ToolOutput? ==> Answered(items[..j], items[j].outputOf)
  }

  ghost predicate Answered(items: seq<Item>, id: string) {
    exists i :: 0 <= i < |items| && IsCall(items[i]) && Printed(items[i].callId) == id
  }

  lemma AnsweredLater(a: seq<Item>, b: seq<Item>, id: string)
    requires Answered(a, id) && a <= b
    ensures Answered(b, id)
  {
    var i :| 0 <= i < |a| && IsCall(a[i]) && Printed(a[i].callId) == id;
    assert b[i] == a[i];
  }

  lemma {:induction false} CallsStand(output: seq<Item>, c: Call)
    requires CallsIn(output).Some? && c in CallsIn(output).value
    ensures Answered(output, c.id)
  {
    var n := |output| - 1;
    if IsCall(output[n]) && c == CallOf(output[n]) {
    } else {
      CallsStand(output[..n], c);
      AnsweredLater(output[..n], output, c.id);
    }
  }

  lemma AppendAnswer(items: seq<Item>, x: Item)
    requires OutputsAnswer(items) && (x.ToolOutput? ==> Answered(items, x.outputOf))
    ensures OutputsAnswer(items + [x])
  {
    var more := items + [x];
    forall j | 0 <= j < |more| && more[j].ToolOutput? ensures Answered(more[..j], more[j].outputOf) {
      assert more[..j] == if j < |items| then items[..j] else items;
    }
  }

  lemma {:induction false} AppendReply(items: seq<Item>, output: seq<Received>)
    requires OutputsAnswer(items)
    ensures OutputsAnswer(items + output)
    decreases |output|
  {
    if output == [] {
      assert items + output == items;
    } else {
      AppendAnswer(items, output[0]);
      AppendReply(items + [output[0]], output[1..]);
      assert items + [output[0]] + output[1..] == items + output;
    }
  }

  lemma {:induction false} ExecutedAnswers(s: State, calls: seq<Call>, tools: set<string>, w: World)
    requires OutputsAnswer(s.conversation)
    requires forall i :: 0 <= i < |calls| ==> Answered(s.conversation, calls[i].id)
    ensures OutputsAnswer(Executed(s, calls, tools, w).0.conversation)
    decreases |calls|
  {
    if calls != [] && calls[0].name in tools {
      var c := calls[0];
      var result := w.execute(|s.executed|, c.name, c.arguments);
      if result.Some? {
        var x := ToolOutput(c.id, result.value);
        AppendAnswer(s.conversation, x);
        forall i | 0 <= i < |calls[1..]| ensures Answered(s.conversation + [x], calls[1..][i].id) {
          AnsweredLater(s.conversation, s.conversation + [x], calls[i + 1].id);
        }
        ExecutedAnswers(State(s.conversation + [x], s.posts, s.executed + [c]), calls[1..], tools, w);
      }
    }
  }

  /** One round: the reply is heard, its calls are executed. */
  lemma RoundAnswers(s: State, output: seq<Received>, calls: seq<Call>, tools: set<string>, w: World)
    requires OutputsAnswer(s.conversation) && CallsIn(output) == Some(calls)
    ensures OutputsAnswer(Executed(State(s.conversation + output, s.posts + 1, s.executed), calls, tools, w).0.conversation)
  {
    AppendReply(s.conversation, output);
    forall i | 0 <= i < |calls| ensures Answered(s.conversation + output, calls[i].id) {
      CallsStand(output, calls[i]);
      var k :| 0 <= k < |output| && IsCall(output[k]) && Printed(output[k].callId) == calls[i].id;
      assert (s.conversation + output)[|s.conversation| + k] == output[k];
    }
    ExecutedAnswers(State(s.conversation + output, s.posts + 1, s.executed), calls, tools, w);
  }

  /** Where the loop goes from one reply. */
  lemma NextRound(s: State, input: Input, tools: set<string>, limit: nat, w: World)
    ensures var reply := w.model(s.posts, input);
      if Verdict(s, reply, tools, limit).Some?
      then Converse(s, input, tools, limit, w).0.conversation == s.conversation
      else
        var (after, error) := Executed(Heard(s, reply), Wanted(s, reply, tools, limit), tools, w);
        && |after.executed| >= |s.executed| && (error.None? ==> |after.executed| > |s.executed|)
        && Converse(s, input, tools, limit, w).0
          == if error.Some? then after else Converse(after, Conversation(after.conversation), tools, limit, w).0
  {
    var reply := w.model(s.posts, input);
    if Verdict(s, reply, tools, limit).None? {
      ExecutedCounts(Heard(s, reply), Wanted(s, reply, tools, limit), tools, w);
    }
  }

  lemma {:induction false} OutputsCarryEarlierIds(s: State, input: Input, tools: set<string>, limit: nat, w: World)
    requires OutputsAnswer(s.conversation)
    ensures OutputsAnswer(Converse(s, input, tools, limit, w).0.conversation)
    decreases limit - |s.executed|
  {
    var reply := w.model(s.posts, input);
    NextRound(s, input, tools, limit, w);
    if Verdict(s, reply, tools, limit).None? {
      var calls := Wanted(s, reply, tools, limit);
      RoundAnswers(s, reply.output, calls, tools, w);
      var (after, error) := Executed(Heard(s, reply), calls, tools, w);
      if error.None? {
        OutputsCarryEarlierIds(after, Conversation(after.conversation), tools, limit, w);
      }
    }
  }

  /** For a request: however the model behaves, no more than its budget of posts
      and executions, only tools whose last matching rule allows them, and every
      output appended to the conversation answers an earlier call. */
  lemma DiagnosisIsBounded(r: Request, inputAsList: bool, w: World)
    ensures var (s, input) := Start(inputAsList, OfferedTools(r));
      var (t, _) := Converse(s, input, OfferedTools(r), Limit(r.maxToolCalls), w);
      && |t.executed| <= Limit(r.maxToolCalls) && t.posts <= Limit(r.maxToolCalls) + 1
      && (forall i :: 0 <= i < |t.executed| ==> LastWord(r.rules, t.executed[i].name))
      && OutputsAnswer(t.conversation)
  {
    var tools := OfferedTools(r);
    var (s, input) := Start(inputAsList, tools);
    BudgetHolds(s, input, tools, Limit(r.maxToolCalls), w);
    OutputsCarryEarlierIds(s, input, tools, Limit(r.maxToolCalls), w);
  }
}
