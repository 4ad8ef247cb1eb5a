/** A diagnosis as the model and the tools see it: the rounds that go through, what each
    post carries, and how the last reply ends the loop. Nothing here speaks of the loop's
    own state. */
module ToolTrace {
  import opened Models
  import opened Collections
  import opened ToolLoop
  import Text

  /** A reply whose calls were all executed, and the texts they returned. */
  datatype Round = Round(output: seq<Received>, calls: seq<Call>, results: seq<string>)

  /** One output for each call, under its id. */
  function Outputs(calls: seq<Call>, results: seq<string>): (r: seq<Item>)
    requires |calls| == |results|
    ensures |r| == |calls| && forall j :: 0 <= j < |r| ==> r[j] == ToolOutput(calls[j].id, results[j])
  {
    seq(|calls|, j requires 0 <= j < |calls| => ToolOutput(calls[j].id, results[j]))
  }

  ghost predicate Paired(rounds: seq<Round>) {
    forall n :: 0 <= n < |rounds| ==> |rounds[n].calls| == |rounds[n].results|
  }

  /** Every reply so far, each followed by the outputs of its calls. */
  function Exchanged(rounds: seq<Round>): seq<Item>
    requires Paired(rounds)
  {
    if rounds == [] then []
    else
      var last := rounds[|rounds| - 1];
      Exchanged(rounds[..|rounds| - 1]) + (last.output + Outputs(last.calls, last.results))
  }

  /** Every call asked for so far. */
  function Asked(rounds: seq<Round>): seq<Call> {
    if rounds == [] then [] else Asked(rounds[..|rounds| - 1]) + rounds[|rounds| - 1].calls
  }

  /** What is fixed for a diagnosis: the world, the tools offered, the budget, and whether
      the first post already carries the prompt as a list. */
  datatype Setting = Setting(w: World, tools: set<string>, limit: nat, listed: bool)

  /** What the next post carries: the prompt, alone at first where no list is needed, and
      all that was exchanged. */
  function Posted(d: Setting, rounds: seq<Round>): Input
    requires Paired(rounds)
  {
    if rounds == [] && !d.listed then Plain else Conversation([Prompt] + Exchanged(rounds))
  }

  /** The n-th execution of the run succeeds with this text. */
  predicate Succeeds(d: Setting, n: nat, c: Call, text: string) {
    c.name in d.tools && d.w.execute(n, c.name, c.arguments) == Some(text)
  }

  /** All calls succeed, one execution after the other from the n-th on. */
  ghost predicate AllSucceed(d: Setting, n: nat, calls: seq<Call>, results: seq<string>) {
    |results| == |calls| && forall j :: 0 <= j < |calls| ==> Succeeds(d, n + j, calls[j], results[j])
  }

  /** The next reply asks for calls that fit the budget, and all of them, in order,
      succeed. */
  ghost predicate Goes(d: Setting, rounds: seq<Round>, next: Round)
    requires Paired(rounds)
  {
    && d.w.model(|rounds|, Posted(d, rounds)) == Replied(next.output)
    && CallsIn(next.output) == Some(next.calls) && next.calls != []
    && |Asked(rounds)| + |next.calls| <= d.limit
    && AllSucceed(d, |Asked(rounds)|, next.calls, next.results)
  }

  ghost predicate IsTrace(d: Setting, rounds: seq<Round>)
    decreases |rounds|
  {
    Paired(rounds) &&
    (rounds == [] || (IsTrace(d, rounds[..|rounds| - 1]) && Goes(d, rounds[..|rounds| - 1], rounds[|rounds| - 1])))
  }

  /** The call at j of the last reply is the first that is not offered or fails. */
  predicate StopsAt(d: Setting, used: nat, calls: seq<Call>, j: nat, error: Error, ran: nat) {
    && j < |calls|
    && (forall i :: 0 <= i < j ==> calls[i].name in d.tools && d.w.execute(used + i, calls[i].name, calls[i].arguments).Some?)
    && if calls[j].name !in d.tools then error == NotAllowed(calls[j].name) && ran == j
       else d.w.execute(used + j, calls[j].name, calls[j].arguments).None? && error == ToolFailed(calls[j].name) && ran == j + 1
  }

  /** How the reply after the rounds ends the loop, with the calls executed in all. */
  ghost predicate Ends(d: Setting, rounds: seq<Round>, executed: seq<Call>, ending: Ending)
    requires Paired(rounds)
  {
    var reply := d.w.model(|rounds|, Posted(d, rounds));
    var used := |Asked(rounds)|;
    match reply
    case PostFailed => ending == Failed(NotPosted) && executed == Asked(rounds)
    case Replied(output) =>
      match CallsIn(output)
      case None => ending == Failed(BadArguments) && executed == Asked(rounds)
      case Some(calls) =>
        if calls == [] then ending == Diagnosed(reply) && executed == Asked(rounds)
        else if d.tools == {} then ending == Failed(ToolsDisabled) && executed == Asked(rounds)
        else if used + |calls| > d.limit then ending == Failed(OverLimit(used + |calls|)) && executed == Asked(rounds)
        else exists j: nat, error, ran: nat ::
          StopsAt(d, used, calls, j, error, ran) && ending == Failed(error) && executed == Asked(rounds) + calls[..ran]
  }

  /** The run: its rounds, its end, and one post more than rounds. */
  ghost predicate IsRun(d: Setting, rounds: seq<Round>, end: State, ending: Ending) {
    IsTrace(d, rounds) && Ends(d, rounds, end.executed, ending) && end.posts == |rounds| + 1
  }

  /** The loop's state after the rounds. */
  ghost predicate At(d: Setting, rounds: seq<Round>, s: State, input: Input) {
    && IsTrace(d, rounds) && s.posts == |rounds| && s.executed == Asked(rounds) && input == Posted(d, rounds)
    && (rounds != [] || d.listed ==> s.conversation == [Prompt] + Exchanged(rounds))
    && (rounds == [] && !d.listed ==> d.tools == {} && s.conversation == [])
  }

  /** What the first call leaves of the run of one reply's calls. */
  lemma FirstCall(d: Setting, s: State, calls: seq<Call>, text: string)
    requires calls != [] && Succeeds(d, |s.executed|, calls[0], text)
    ensures var c := calls[0];
      Executed(s, calls, d.tools, d.w)
        == Executed(State(s.conversation + [ToolOutput(c.id, text)], s.posts, s.executed + [c]), calls[1..], d.tools, d.w)
  {
  }

  lemma OutputsFirst(calls: seq<Call>, results: seq<string>)
    requires |calls| == |results| && calls != []
    ensures Outputs(calls, results) == [ToolOutput(calls[0].id, results[0])] + Outputs(calls[1..], results[1..])
  {
  }

  lemma SucceedFirst(d: Setting, n: nat, calls: seq<Call>, text: string, more: seq<string>)
    requires calls != [] && Succeeds(d, n, calls[0], text) && AllSucceed(d, n + 1, calls[1..], more)
    ensures AllSucceed(d, n, calls, [text] + more)
  {
    forall j | 0 <= j < |calls| ensures Succeeds(d, n + j, calls[j], ([text] + more)[j]) {
      assert j > 0 ==> Succeeds(d, n + 1 + (j - 1), calls[1..][j - 1], more[j - 1]);
    }
  }

  /** A reply's calls that all run: their outputs are appended in order. */
  lemma {:induction false} CallsSucceed(d: Setting, s: State, calls: seq<Call>) returns (results: seq<string>)
    requires Executed(s, calls, d.tools, d.w).1.None?
    ensures AllSucceed(d, |s.executed|, calls, results)
    ensures Executed(s, calls, d.tools, d.w).0 == State(s.conversation + Outputs(calls, results), s.posts, s.executed + calls)
    decreases |calls|
  {
    if calls == [] {
      results := [];
      assert s.executed + [] == s.executed && s.conversation + Outputs([], []) == s.conversation;
    } else {
      var c, text := calls[0], d.w.execute(|s.executed|, calls[0].name, calls[0].arguments).value;
      FirstCall(d, s, calls, text);
      var more := CallsSucceed(d, State(s.conversation + [ToolOutput(c.id, text)], s.posts, s.executed + [c]), calls[1..]);
      results := [text] + more;
      SucceedFirst(d, |s.executed|, calls, text, more);
      OutputsFirst(calls, results);
      assert results[1..] == more;
      Associative(s.conversation, [ToolOutput(c.id, text)], Outputs(calls[1..], more));
      Associative(s.executed, [c], calls[1..]);
      assert [c] + calls[1..] == calls;
    }
  }

  lemma PrefixFirst(before: seq<Call>, calls: seq<Call>, n: nat)
    requires n < |calls|
    ensures before + [calls[0]] + calls[1..][..n] == before + calls[..n + 1]
  {
  }

  /** A reply's calls of which one stops: those before it, and it if it ran, count. */
  lemma {:induction false} CallsStop(d: Setting, s: State, calls: seq<Call>) returns (j: nat, ran: nat)
    requires Executed(s, calls, d.tools, d.w).1.Some?
    ensures var (t, error) := Executed(s, calls, d.tools, d.w);
      && t.posts == s.posts && StopsAt(d, |s.executed|, calls, j, error.value, ran) && t.executed == s.executed + calls[..ran]
    decreases |calls|
  {
    var c := calls[0];
    j, ran := 0, 0;
    if c.name in d.tools {
      var result := d.w.execute(|s.executed|, c.name, c.arguments);
      if result.Some? {
        var next := State(s.conversation + [ToolOutput(c.id, result.value)], s.posts, s.executed + [c]);
        FirstCall(d, s, calls, result.value);
        j, ran := CallsStop(d, next, calls[1..]);
        StopsLater(d, |s.executed|, calls, j, Executed(s, calls, d.tools, d.w).1.value, ran);
        PrefixFirst(s.executed, calls, ran);
        j, ran := j + 1, ran + 1;
      } else {
        ran := 1;
        assert calls[..1] == [c];
      }
    } else {
      assert s.executed + calls[..0] == s.executed;
    }
  }

  lemma StopsLater(d: Setting, used: nat, calls: seq<Call>, j: nat, error: Error, ran: nat)
    requires calls != [] && calls[0].name in d.tools && d.w.execute(used, calls[0].name, calls[0].arguments).Some?
    requires StopsAt(d, used + 1, calls[1..], j, error, ran)
    ensures StopsAt(d, used, calls, j + 1, error, ran + 1)
  {
    forall i | 0 <= i < j + 1 ensures calls[i].name in d.tools && d.w.execute(used + i, calls[i].name, calls[i].arguments).Some? {
      assert i > 0 ==> calls[1..][i - 1] == calls[i];
    }
  }

  /** Adding a round to a trace. */
  lemma OneRoundMore(d: Setting, rounds: seq<Round>, next: Round)
    requires IsTrace(d, rounds) && Goes(d, rounds, next)
    ensures IsTrace(d, rounds + [next])
    ensures Asked(rounds + [next]) == Asked(rounds) + next.calls
    ensures Exchanged(rounds + [next]) == Exchanged(rounds) + (next.output + Outputs(next.calls, next.results))
  {
    var more := rounds + [next];
    assert more[..|more| - 1] == rounds && more[|more| - 1] == next;
  }

  /** A reply that goes on takes the loop from one round to the next. */
  lemma NextAt(d: Setting, rounds: seq<Round>, s: State, input: Input) returns (next: Round)
    requires At(d, rounds, s, input) && Verdict(s, d.w.model(s.posts, input), d.tools, d.limit).None?
    requires var reply := d.w.model(s.posts, input);
      Executed(Heard(s, reply), Wanted(s, reply, d.tools, d.limit), d.tools, d.w).1.None?
    ensures var reply := d.w.model(s.posts, input);
      var after := Executed(Heard(s, reply), Wanted(s, reply, d.tools, d.limit), d.tools, d.w).0;
      Goes(d, rounds, next) && At(d, rounds + [next], after, Conversation(after.conversation))
  {
    var reply := d.w.model(s.posts, input);
    var calls := Wanted(s, reply, d.tools, d.limit);
    var results := CallsSucceed(d, Heard(s, reply), calls);
    next := Round(reply.output, calls, results);
    OneRoundMore(d, rounds, next);
    assert (rounds + [next]) != [];
    Associative([Prompt] + Exchanged(rounds), reply.output, Outputs(calls, results));
    Associative([Prompt], Exchanged(rounds), reply.output + Outputs(calls, results));
  }

  /** A reply one of whose calls stops ends the loop. */
  lemma StopEnds(d: Setting, rounds: seq<Round>, s: State, input: Input)
    requires At(d, rounds, s, input) && Verdict(s, d.w.model(s.posts, input), d.tools, d.limit).None?
    requires var reply := d.w.model(s.posts, input);
      Executed(Heard(s, reply), Wanted(s, reply, d.tools, d.limit), d.tools, d.w).1.Some?
    ensures var reply := d.w.model(s.posts, input);
      var (after, error) := Executed(Heard(s, reply), Wanted(s, reply, d.tools, d.limit), d.tools, d.w);
      Ends(d, rounds, after.executed, Failed(error.value)) && after.posts == |rounds| + 1
  {
    var reply := d.w.model(s.posts, input);
    var j, ran := CallsStop(d, Heard(s, reply), Wanted(s, reply, d.tools, d.limit));
  }

  /** A reply that ends the loop before any of its calls runs. */
  lemma VerdictEnds(d: Setting, rounds: seq<Round>, s: State, input: Input)
    requires At(d, rounds, s, input) && Verdict(s, d.w.model(s.posts, input), d.tools, d.limit).Some?
    ensures Ends(d, rounds, s.executed, Verdict(s, d.w.model(s.posts, input), d.tools, d.limit).value)
  {
  }

  /** From any point of the loop on. */
  lemma {:induction false} LoopTraced(d: Setting, rounds: seq<Round>, s: State, input: Input) returns (all: seq<Round>)
    requires At(d, rounds, s, input)
    ensures var (end, ending) := Converse(s, input, d.tools, d.limit, d.w); IsRun(d, all, end, ending)
    decreases d.limit - |s.executed|
  {
    var reply := d.w.model(s.posts, input);
    if Verdict(s, reply, d.tools, d.limit).Some? {
      VerdictEnds(d, rounds, s, input);
      all := rounds;
    } else {
      var calls := Wanted(s, reply, d.tools, d.limit);
      var (after, error) := Executed(Heard(s, reply), calls, d.tools, d.w);
      ExecutedCounts(Heard(s, reply), calls, d.tools, d.w);
      if error.Some? {
        StopEnds(d, rounds, s, input);
        all := rounds;
      } else {
        var next := NextAt(d, rounds, s, input);
        all := LoopTraced(d, rounds + [next], after, Conversation(after.conversation));
      }
    }
  }

  /** The budget: the configured number of calls if positive, else one. */
  function SettingOf(r: Request, inputAsList: bool, w: World): Setting {
    Setting(w, OfferedTools(r), if r.maxToolCalls > 0 then r.maxToolCalls else 1, inputAsList || OfferedTools(r) != {})
  }

  /** Every diagnosis is such a run, whatever the model and the tools answer. */
  lemma DiagnosisTraced(r: Request, inputAsList: bool, w: World) returns (rounds: seq<Round>)
    ensures var (s, input) := Start(inputAsList, OfferedTools(r));
      var (end, ending) := Converse(s, input, OfferedTools(r), Limit(r.maxToolCalls), w);
      IsRun(SettingOf(r, inputAsList, w), rounds, end, ending)
  {
    var d := SettingOf(r, inputAsList, w);
    var (s, input) := Start(inputAsList, OfferedTools(r));
    assert [Prompt] + Exchanged([]) == [Prompt];
    rounds := LoopTraced(d, [], s, input);
  }

  /** The loop ends over the limit if and only if a reply's calls, with all asked for
      before, exceed the budget; and it names their number. */
  lemma OverLimitExactly(d: Setting, rounds: seq<Round>, end: State, ending: Ending, wanted: nat)
    requires IsRun(d, rounds, end, ending)
    ensures var reply := d.w.model(|rounds|, Posted(d, rounds));
      ending == Failed(OverLimit(wanted)) <==>
        && reply.Replied? && d.tools != {}
        && CallsIn(reply.output).Some? && CallsIn(reply.output).value != []
        && wanted == |Asked(rounds)| + |CallsIn(reply.output).value| > d.limit
  {
    var reply, used := d.w.model(|rounds|, Posted(d, rounds)), |Asked(rounds)|;
    if reply.Replied? && CallsIn(reply.output).Some? {
      var calls := CallsIn(reply.output).value;
      if calls != [] && d.tools != {} && used + |calls| <= d.limit {
        var j: nat, error, ran: nat :| StopsAt(d, used, calls, j, error, ran) && ending == Failed(error);
      }
    }
  }

  // ---------------------------------------------------------------------
  // Which items of a reply are calls
  // ---------------------------------------------------------------------

  /** A function call whose id and name, where present, are not blank. */
  predicate AsksForTool(x: Item) {
    && x.FunctionCall?
    && (x.callId.Some? ==> Text.TrimSpace(x.callId.value) != "") && (x.name.Some? ==> Text.TrimSpace(x.name.value) != "")
  }

  lemma AsksIsCall(x: Item)
    ensures IsCall(x) <==> AsksForTool(x)
  {
    Text.TrimmedIsFixed("<nil>");
  }

  /** The call made by an item. */
  ghost predicate MadeBy(c: Call, x: Item) {
    && AsksForTool(x) && c.arguments == x.arguments
    && (x.callId.Some? ==> c.id == Text.TrimSpace(x.callId.value)) && (x.name.Some? ==> c.name == Text.TrimSpace(x.name.value))
  }

  /** The positions, in rising order, are those of the items that ask for tools. */
  ghost predicate ListsCalls(at: seq<nat>, output: seq<Item>) {
    && (forall n :: 0 <= n < |at| ==> at[n] < |output| && AsksForTool(output[at[n]]))
    && (forall n, m :: 0 <= n < m < |at| ==> at[n] < at[m])
    && (forall i :: 0 <= i < |output| && AsksForTool(output[i]) ==> i in at)
  }

  ghost predicate Spoils(output: seq<Item>, i: nat) {
    i < |output| && AsksForTool(output[i]) && !output[i].argumentsValid
  }

  lemma SpoilsFrom(output: seq<Item>, i: nat)
    requires output != []
    ensures Spoils(output, i) <==>
      Spoils(output[..|output| - 1], i) || (i == |output| - 1 && AsksForTool(output[i]) && !output[i].argumentsValid)
  {
  }

  /** One call with invalid arguments spoils the reply. */
  lemma {:induction false} SpoiledExactly(output: seq<Item>)
    ensures CallsIn(output).None? <==> exists i :: Spoils(output, i)
    decreases |output|
  {
    if output != [] {
      var n := |output| - 1;
      SpoiledExactly(output[..n]);
      AsksIsCall(output[n]);
      forall i: nat ensures Spoils(output, i) <==> Spoils(output[..n], i) || (i == n && AsksForTool(output[n]) && !output[n].argumentsValid) {
        SpoilsFrom(output, i);
      }
      if CallsIn(output[..n]).None? {
        var i :| Spoils(output[..n], i);
        assert Spoils(output, i);
      } else if CallsIn(output).None? {
        assert Spoils(output, n);
      }
    }
  }

  lemma ListsOneMore(at: seq<nat>, output: seq<Item>)
    requires output != [] && ListsCalls(at, output[..|output| - 1])
    ensures var n := |output| - 1; ListsCalls(if AsksForTool(output[n]) then at + [n] else at, output)
  {
    var n := |output| - 1;
    var more := if AsksForTool(output[n]) then at + [n] else at;
    forall m | 0 <= m < |at| ensures at[m] < n && AsksForTool(output[at[m]]) {
      assert output[..n][at[m]] == output[at[m]];
    }
    forall i | 0 <= i < |output| && AsksForTool(output[i]) ensures i in more {
      if i < n {
        assert output[..n][i] == output[i];
        assert i in at;
      } else {
        assert more[|at|] == n;
      }
    }
  }

  ghost predicate MadeAt(calls: seq<Call>, output: seq<Item>, at: seq<nat>) {
    |at| == |calls| && forall n :: 0 <= n < |at| ==> at[n] < |output| && MadeBy(calls[n], output[at[n]])
  }

  lemma MadeOneMore(calls: seq<Call>, output: seq<Item>, at: seq<nat>)
    requires output != [] && MadeAt(calls, output[..|output| - 1], at)
    ensures MadeAt(calls, output, at)
    ensures AsksForTool(output[|output| - 1]) ==> MadeAt(calls + [CallOf(output[|output| - 1])], output, at + [|output| - 1])
  {
    var n := |output| - 1;
    forall m | 0 <= m < |at| ensures at[m] < |output| && MadeBy(calls[m], output[at[m]]) {
      assert output[..n][at[m]] == output[at[m]];
    }
  }

  /** Otherwise its calls are its items that ask for tools, in order. */
  lemma {:induction false} CallsListed(output: seq<Item>) returns (at: seq<nat>)
    requires CallsIn(output).Some?
    ensures ListsCalls(at, output) && MadeAt(CallsIn(output).value, output, at)
    decreases |output|
  {
    at := [];
    if output != [] {
      var n := |output| - 1;
      at := CallsListed(output[..n]);
      AsksIsCall(output[n]);
      ListsOneMore(at, output);
      MadeOneMore(CallsIn(output[..n]).value, output, at);
      if AsksForTool(output[n]) {
        at := at + [n];
      }
    }
  }

  // ---------------------------------------------------------------------
  // Which tools are offered
  // ---------------------------------------------------------------------

  /** Without a rule a tool is not allowed; the last rule that names it, or a star, says
      whether it is; a rule for another tool, or a blank one, says nothing. */
  lemma LastRuleDecides(rules: seq<Rule>, last: Rule, name: string)
    requires IsToolName(name)
    ensures !LastWord([], name)
    ensures var tool, action := Text.TrimSpace(last.tool), Text.TrimSpace(last.action);
      LastWord(rules + [last], name) ==
        if action != "" && (tool == name || tool == "*") then action == "allow" else LastWord(rules, name)
  {
    var all := rules + [last];
    assert all[..|all| - 1] == rules && all[|all| - 1] == last;
    assert name != "";
  }

  /** Nothing is offered but to an admin with tools enabled and a live snapshot; and then
      a known tool is, when the rules allow it, and for logs and history when the server
      has them. */
  lemma OfferedExactly(r: Request, name: string)
    ensures name in OfferedTools(r) <==>
      && r.toolsEnabled && r.adminRecipient && r.liveSnapshot && LastWord(r.rules, name)
      && (|| name in {"noobboard_current_status", "noobboard_server_status", "noobboard_network_status", "noobboard_app_status"}
          || (name == "noobboard_app_logs" && r.appLogs) || (name == "noobboard_app_history" && r.appHistory))
  {
  }
}
