/** The tool-calling graph: the model answers or calls tools, tools run with same-run deduplication of
    side effects, and the transport retries once where the policy allows it. */
module ToolGraph {
  import opened CanonicalJson
  import opened Options

  // ---- Data ----

  /** A tool call as the model emits it; a missing id is empty, missing arguments are `Null`. */
  datatype ToolCall = ToolCall(name: string, args: Json, id: string)

  datatype Message =
    | Human(content: string)
    | AI(calls: seq<ToolCall>)
    | Tool(content: string, callId: string, name: string)

  /** A request that reaches the MCP server. */
  datatype Request = Request(tool: string, args: Json)

  datatype Reply = Ok(text: string) | Failed(error: string)

  datatype Reconnect = Up | ToolGone | Down(error: string)

  /** How the outside behaves in one run: what the n-th model step emits, what the n-th request that
      reaches the server yields, how a reconnect after it ends. */
  datatype World = World(
    model: nat -> seq<ToolCall>,
    reply: nat -> Reply,
    reconnect: nat -> Reconnect)

  /** `value or {}`, then `{"input": value}` for what is no dictionary. */
  predicate Falsy(j: Json) {
    match j
    case Null => true
    case Bool(b) => !b
    case Int(n) => n == 0
    case Float(repr) => repr == "0.0" || repr == "-0.0"
    case Str(s) => s == ""
    case Arr(items) => items == []
    case Obj(members) => members == map[]
  }

  function ToolArgs(raw: Json): (args: Json)
    ensures args.Obj?
    ensures Valid(raw) ==> Valid(args)
    ensures args == raw <==> raw.Obj?
    ensures !raw.Obj? ==> args == Obj(if Falsy(raw) then map[] else map["input" := raw])
  {
    if Falsy(raw) then Obj(map[])
    else if raw.Obj? then raw
    else Obj(map["input" := raw])
  }

  /** `id or name or "tool-call"`: never empty. */
  function CallId(call: ToolCall): (id: string)
    ensures id != ""
    ensures id == call.id <==> call.id != ""
    ensures call.id == "" ==> id == if call.name != "" then call.name else "tool-call"
  {
    if call.id != "" then call.id else if call.name != "" then call.name else "tool-call"
  }

  // ---- The transport: the argument schema and `tool_wrapper` ----

  const SESSION_ID := "session_id"

  /** What the tool's argument schema makes of a call's arguments: the arguments that the wrapper gets, or
      a validation error.  Which of the two, and which arguments are dropped or converted, is the schema's
      business. */
  datatype Checked = Passed(members: map<string, Json>) | Refused(error: string)

  type Schema = (string, Json) -> Checked

  datatype Node = Node(tools: set<string>, sid: string, schema: Schema)

  /** The arguments as the server sees them. */
  function WithSession(members: map<string, Json>, sid: string): (args: Json)
    ensures args.Obj? && args.members.Keys == members.Keys + {SESSION_ID}
    ensures forall k :: k in args.members ==> args.members[k] == if k == SESSION_ID then Str(sid) else members[k]
  {
    Obj(members[SESSION_ID := Str(sid)])
  }

  /** `tool_wrapper`: the reply, and the requests that reached the server. */
  function Forward(w: World, log: seq<Request>, tool: string, members: map<string, Json>, sid: string): (Reply, seq<Request>) {
    var request := Request(tool, WithSession(members, sid));
    var log1 := log + [request];
    match w.reply(|log|)
    case Ok(text) => (Ok(text), log1)
    case Failed(error) =>
      if !GetPolicy(tool).allowTransportRetry then (Failed(error), log1)
      else
        match w.reconnect(|log|)
        case Down(reason) => (Failed(reason), log1)
        case ToolGone => (Failed("Tool '" + tool + "' unavailable after reconnect"), log1)
        case Up => (w.reply(|log1|), log1 + [request])
  }

  /** The wrapper behind the schema. */
  function Invoke(node: Node, w: World, log: seq<Request>, tool: string, args: Json): (Reply, seq<Request>) {
    match node.schema(tool, args)
    case Refused(error) => (Failed(error), log)
    case Passed(members) => Forward(w, log, tool, members, node.sid)
  }

  class McpManager {
    const sid: string
    const schema: Schema
    var log: seq<Request>

    constructor (sid: string, schema: Schema)
      ensures this.sid == sid && this.schema == schema && log == []
    {
      this.sid, this.schema, log := sid, schema, [];
    }

    method ToolWrapper(w: World, tool: string, members: map<string, Json>) returns (reply: Reply)
      modifies this`log
      ensures (reply, log) == Forward(w, old(log), tool, members, sid)
    {
      var request := Request(tool, WithSession(members, sid));
      var policy := GetPolicy(tool);
      reply := w.reply(|log|);
      var reconnect := w.reconnect(|log|);
      log := log + [request];
      if reply.Ok? || !policy.allowTransportRetry { return; }
      match reconnect {
        case Down(reason) => reply := Failed(reason);
        case ToolGone => reply := Failed("Tool '" + tool + "' unavailable after reconnect");
        case Up =>
          reply := w.reply(|log|);
          log := log + [request];
      }
    }

    /** The tool that the node holds: the schema first, then the wrapper. */
    method AInvoke(w: World, tools: set<string>, tool: string, args: Json) returns (reply: Reply)
      modifies this`log
      ensures (reply, log) == Invoke(Node(tools, sid, schema), w, old(log), tool, args)
    {
      var checked := schema(tool, args);
      match checked {
        case Refused(error) => return Failed(error);
        case Passed(members) => reply := ToolWrapper(w, tool, members);
      }
    }
  }

  /** Arguments that the schema refuses never reach the server.  Others of a side-effecting tool reach it
      exactly once, whatever happens; those of another tool at most twice, and twice exactly when the
      first attempt failed and the reconnect found the tool. */
  lemma AttemptsPerInvocation(node: Node, w: World, log: seq<Request>, tool: string, args: Json)
    ensures var log' := Invoke(node, w, log, tool, args).1;
            match node.schema(tool, args)
            case Refused(_) => log' == log
            case Passed(members) =>
              && log <= log' && 1 <= |log'| - |log| <= 2
              && (forall i :: |log| <= i < |log'| ==> log'[i] == Request(tool, WithSession(members, node.sid)))
              && (|log'| - |log| == 2 <==>
                    tool !in SIDE_EFFECT_TOOLS && w.reply(|log|).Failed? && w.reconnect(|log|).Up?)
  {
  }

  /** The reply, told from what reached the server.  Nothing reached it: the schema's refusal.  One request:
      its answer if that is a success or the tool has side effects, else why the reconnect did not help.
      Two requests: the answer to the second, whatever the first one was. */
  lemma ReplyOfInvocation(node: Node, w: World, log: seq<Request>, tool: string, args: Json)
    ensures var (reply, log') := Invoke(node, w, log, tool, args);
            var requests := |log'| - |log|;
            && 0 <= requests <= 2
            && (requests == 0 ==> reply.Failed? && node.schema(tool, args) == Refused(reply.error))
            && (requests == 1 && (w.reply(|log|).Ok? || tool in SIDE_EFFECT_TOOLS) ==> reply == w.reply(|log|))
            && (requests == 1 && w.reply(|log|).Failed? && tool !in SIDE_EFFECT_TOOLS ==>
                  && reply.Failed? && !w.reconnect(|log|).Up?
                  && reply.error == match w.reconnect(|log|)
                                    case Down(error) => error
                                    case _ => "Tool '" + tool + "' unavailable after reconnect")
            && (requests == 2 ==> reply == w.reply(|log| + 1))
  {
  }

  // ---- The tool node: `DedupToolNode` ----

  type Cache = map<string, string>

  function Content(call: ToolCall, reply: Reply): string {
    match reply
    case Ok(text) => text
    case Failed(error) => "Tool '" + call.name + "' failed: " + error
  }

  function Key(call: ToolCall): string {
    DedupeKey(call.name, ToolArgs(call.args))
  }

  /** One call: its result, the cache and the server log after it. */
  function OnCall(node: Node, w: World, cache: Cache, log: seq<Request>, call: ToolCall): (string, Cache, seq<Request>) {
    if call.name !in node.tools then ("Tool '" + call.name + "' is not available.", cache, log)
    else if GetPolicy(call.name).sameTurnDedupe && Key(call) in cache then (cache[Key(call)], cache, log)
    else
      var (reply, log') := Invoke(node, w, log, call.name, ToolArgs(call.args));
      var content := Content(call, reply);
      (content, if GetPolicy(call.name).sameTurnDedupe then cache[Key(call) := content] else cache, log')
  }

  /** What a call is answered: that there is no such tool; the result kept from an equal call of this run; or
      the text of the tool's reply, or its error under the tool's name.  Only the last adds to the log, and
      its answer is kept if and only if the tool has side effects. */
  lemma AnswerOfCall(node: Node, w: World, cache: Cache, log: seq<Request>, call: ToolCall)
    ensures var (content, cache', log') := OnCall(node, w, cache, log, call);
            var kept := call.name in SIDE_EFFECT_TOOLS && Key(call) in cache;
            var (reply, asked) := Invoke(node, w, log, call.name, ToolArgs(call.args));
            && (call.name !in node.tools ==>
                  content == "Tool '" + call.name + "' is not available." && cache' == cache && log' == log)
            && (call.name in node.tools && kept ==> content == cache[Key(call)] && cache' == cache && log' == log)
            && (call.name in node.tools && !kept ==>
                  && log' == asked
                  && (reply.Ok? ==> content == reply.text)
                  && (reply.Failed? ==> content == "Tool '" + call.name + "' failed: " + reply.error)
                  && (forall key :: key in cache ==> key in cache' && cache'[key] == cache[key])
                  && (forall key :: key in cache' && key !in cache ==>
                        key == Key(call) && cache'[key] == content && call.name in SIDE_EFFECT_TOOLS)
                  && (call.name in SIDE_EFFECT_TOOLS ==> Key(call) in cache'))
  {
  }

  /** The calls of one message, in order. */
  function OnCalls(node: Node, w: World, cache: Cache, log: seq<Request>, calls: seq<ToolCall>)
    : (r: (seq<string>, Cache, seq<Request>))
    ensures |r.0| == |calls|
    decreases |calls|
  {
    if calls == [] then ([], cache, log)
    else
      var n := |calls| - 1;
      var (contents, cache1, log1) := OnCalls(node, w, cache, log, calls[..n]);
      var (content, cache2, log2) := OnCall(node, w, cache1, log1, calls[n]);
      (contents + [content], cache2, log2)
  }

  function ToolMessages(calls: seq<ToolCall>, contents: seq<string>): (messages: seq<Message>)
    requires |calls| == |contents|
    ensures |messages| == |calls|
    ensures forall i :: 0 <= i < |calls| ==> messages[i] == Tool(contents[i], CallId(calls[i]), calls[i].name)
  {
    seq(|calls|, i requires 0 <= i < |calls| => Tool(contents[i], CallId(calls[i]), calls[i].name))
  }

  class DedupToolNode {
    const tools: set<string>
    const manager: McpManager

    constructor (tools: set<string>, manager: McpManager)
      ensures this.tools == tools && this.manager == manager
    {
      this.tools, this.manager := tools, manager;
    }

    function Value(): Node {
      Node(tools, manager.sid, manager.schema)
    }

    method InvokeTool(w: World, call: ToolCall, cache: Cache) returns (content: string, cache': Cache)
      requires call.name in tools && (GetPolicy(call.name).sameTurnDedupe ==> Key(call) !in cache)
      modifies manager`log
      ensures (content, cache', manager.log) == OnCall(Value(), w, cache, old(manager.log), call)
    {
      var reply := manager.AInvoke(w, tools, call.name, ToolArgs(call.args));
      content := Content(call, reply);
      cache' := cache;
      if GetPolicy(call.name).sameTurnDedupe {
        cache' := cache'[Key(call) := content];
      }
    }

    method ExecuteWithDedupe(call: ToolCall, cache: Cache) returns (hit: Option<string>)
      ensures hit == if GetPolicy(call.name).sameTurnDedupe && Key(call) in cache then Some(cache[Key(call)]) else None
    {
      if !GetPolicy(call.name).sameTurnDedupe { return None; }
      var key := Key(call);
      if key in cache { return Some(cache[key]); }
      return None;
    }

    method RunOne(w: World, cache0: Cache, call: ToolCall) returns (content: string, cache: Cache)
      modifies manager`log
      ensures (content, cache, manager.log) == OnCall(Value(), w, cache0, old(manager.log), call)
    {
      if call.name !in tools {
        return "Tool '" + call.name + "' is not available.", cache0;
      }
      var hit := ExecuteWithDedupe(call, cache0);
      if hit.Some? { return hit.value, cache0; }
      content, cache := InvokeTool(w, call, cache0);
    }

    method Call(w: World, cache0: Cache, calls: seq<ToolCall>) returns (messages: seq<Message>, cache: Cache)
      modifies manager`log
      ensures var (contents, cache', log') := OnCalls(Value(), w, cache0, old(manager.log), calls);
              messages == ToolMessages(calls, contents) && cache == cache' && manager.log == log'
    {
      messages, cache := [], cache0;
      ghost var contents: seq<string> := [];
      ghost var log0 := manager.log;
      var n := 0;
      while n < |calls|
        invariant 0 <= n <= |calls| && |contents| == n
        invariant OnCalls(Value(), w, cache0, log0, calls[..n]) == (contents, cache, manager.log)
        invariant messages == ToolMessages(calls[..n], contents)
      {
        ghost var before := manager.log;
        ghost var cacheBefore := cache;
        var content;
        content, cache := RunOne(w, cache, calls[n]);
        OnNextCall(Value(), w, cache0, log0, calls, n, contents, cacheBefore, before);
        ToolMessagesExtend(calls, n, contents, content);
        messages := messages + [Tool(content, CallId(calls[n]), calls[n].name)];
        contents := contents + [content];
        n := n + 1;
      }
      assert calls[..n] == calls;
    }
  }

  lemma OnNextCall(node: Node, w: World, cache0: Cache, log0: seq<Request>, calls: seq<ToolCall>, n: nat,
                   contents: seq<string>, cache: Cache, log: seq<Request>)
    requires n < |calls| && OnCalls(node, w, cache0, log0, calls[..n]) == (contents, cache, log)
    ensures var (content, cache', log') := OnCall(node, w, cache, log, calls[n]);
            OnCalls(node, w, cache0, log0, calls[..n + 1]) == (contents + [content], cache', log')
  {
    assert calls[..n + 1][..n] == calls[..n];
  }

  lemma ToolMessagesExtend(calls: seq<ToolCall>, n: nat, contents: seq<string>, content: string)
    requires n < |calls| && |contents| == n
    ensures ToolMessages(calls[..n + 1], contents + [content])
            == ToolMessages(calls[..n], contents) + [Tool(content, CallId(calls[n]), calls[n].name)]
  {
  }

  // ---- The graph: START -> llm_step -> (run_tools -> llm_step)* -> END ----

  /** One visit to the tool node: the calls of the message it answers, and the results. */
  datatype Round = Round(calls: seq<ToolCall>, contents: seq<string>)

  datatype Run = Run(
    messages: seq<Message>,
    iteration: int,
    llmSteps: nat,
    cache: Cache,
    log: seq<Request>,
    rounds: seq<Round>)

  function Initial(question: string): Run {
    Run([Human(question)], 0, 0, map[], [], [])
  }

  /** `llm_step`. */
  function Ask(w: World, r: Run): Run {
    r.(messages := r.messages + [AI(w.model(r.llmSteps))], llmSteps := r.llmSteps + 1)
  }

  /** `run_tools`, answering the last message. */
  function Answer(node: Node, w: World, r: Run, calls: seq<ToolCall>): Run {
    var (contents, cache, log) := OnCalls(node, w, r.cache, r.log, calls);
    r.(messages := r.messages + ToolMessages(calls, contents),
       iteration := r.iteration + 1,
       cache := cache,
       log := log,
       rounds := r.rounds + [Round(calls, contents)])
  }

  /** The rest of a run from an `llm_step` on, routed by `route_after_llm`. */
  function Finish(node: Node, w: World, maxIterations: int, r: Run): Run
    decreases maxIterations - r.iteration
  {
    var calls := w.model(r.llmSteps);
    if calls == [] || r.iteration >= maxIterations then Ask(w, r)
    else Finish(node, w, maxIterations, Answer(node, w, Ask(w, r), calls))
  }

  /** A whole run. */
  function RunGraph(node: Node, w: World, question: string, maxIterations: int): Run {
    Finish(node, w, maxIterations, Initial(question))
  }

  // ---- What a run is measured against ----

  function AllCalls(rounds: seq<Round>): seq<ToolCall> {
    if rounds == [] then [] else AllCalls(rounds[..|rounds| - 1]) + rounds[|rounds| - 1].calls
  }

  function AllContents(rounds: seq<Round>): seq<string> {
    if rounds == [] then [] else AllContents(rounds[..|rounds| - 1]) + rounds[|rounds| - 1].contents
  }

  predicate Complete(round: Round) {
    round.calls != [] && |round.contents| == |round.calls|
  }

  /** The conversation in which every message with calls is answered, call by call, in order. */
  function Transcript(question: string, rounds: seq<Round>): seq<Message>
    requires forall i :: 0 <= i < |rounds| ==> Complete(rounds[i])
  {
    if rounds == [] then [Human(question)]
    else
      var last := rounds[|rounds| - 1];
      assert Complete(last);
      Transcript(question, rounds[..|rounds| - 1]) + [AI(last.calls)] + ToolMessages(last.calls, last.contents)
  }

  /** A call that has side effects and can run. */
  predicate Effective(node: Node, call: ToolCall) {
    call.name in node.tools && call.name in SIDE_EFFECT_TOOLS
  }

  predicate Same(c: ToolCall, d: ToolCall) {
    c.name == d.name && ToolArgs(c.args) == ToolArgs(d.args)
  }

  predicate Seen(calls: seq<ToolCall>, c: ToolCall) {
    exists i :: 0 <= i < |calls| && Same(calls[i], c)
  }

  /** The first of each group of effective calls with the same tool and arguments, in order. */
  function FirstCalls(node: Node, calls: seq<ToolCall>): seq<ToolCall> {
    if calls == [] then []
    else
      var earlier, c := calls[..|calls| - 1], calls[|calls| - 1];
      FirstCalls(node, earlier) + (if Effective(node, c) && !Seen(earlier, c) then [c] else [])
  }

  predicate Passes(node: Node, c: ToolCall) {
    node.schema(c.name, ToolArgs(c.args)).Passed?
  }

  /** The calls whose arguments the schema lets through, in order. */
  function Passing(node: Node, calls: seq<ToolCall>): (r: seq<ToolCall>)
    ensures forall c :: c in r <==> c in calls && Passes(node, c)
    ensures |r| <= |calls|
  {
    if calls == [] then []
    else
      var n := |calls| - 1;
      assert calls == calls[..n] + [calls[n]];
      Passing(node, calls[..n]) + (if Passes(node, calls[n]) then [calls[n]] else [])
  }

  function ServerRequest(node: Node, c: ToolCall): Request
    requires Passes(node, c)
  {
    Request(c.name, WithSession(node.schema(c.name, ToolArgs(c.args)).members, node.sid))
  }

  function ServerRequests(node: Node, calls: seq<ToolCall>): (requests: seq<Request>)
    requires forall c :: c in calls ==> Passes(node, c)
    ensures |requests| == |calls|
    ensures forall i :: 0 <= i < |calls| ==> requests[i] == ServerRequest(node, calls[i])
  {
    seq(|calls|, i requires 0 <= i < |calls| => ServerRequest(node, calls[i]))
  }

  /** The requests for side-effecting tools among those that reached the server. */
  function SideRequests(log: seq<Request>): seq<Request> {
    if log == [] then []
    else SideRequests(log[..|log| - 1]) + (if log[|log| - 1].tool in SIDE_EFFECT_TOOLS then [log[|log| - 1]] else [])
  }

  // ---- The invariant of the cache and the log ----

  ghost predicate CacheKnows(node: Node, cache: Cache, calls: seq<ToolCall>) {
    forall c :: Effective(node, c) && Valid(c.args) ==> (Key(c) in cache <==> Seen(calls, c))
  }

  ghost predicate ResultsCached(node: Node, cache: Cache, calls: seq<ToolCall>, contents: seq<string>) {
    && |contents| == |calls|
    && forall i :: 0 <= i < |calls| && Effective(node, calls[i]) ==>
         Key(calls[i]) in cache && contents[i] == cache[Key(calls[i])]
  }

  ghost predicate Inv(node: Node, cache: Cache, log: seq<Request>, calls: seq<ToolCall>, contents: seq<string>) {
    && CacheKnows(node, cache, calls)
    && ResultsCached(node, cache, calls, contents)
    && SideRequests(log) == ServerRequests(node, Passing(node, FirstCalls(node, calls)))
  }

  lemma SeenAfter(calls: seq<ToolCall>, c: ToolCall, d: ToolCall)
    ensures Seen(calls + [c], d) <==> Seen(calls, d) || Same(c, d)
  {
    var more := calls + [c];
    if Seen(calls, d) {
      var i :| 0 <= i < |calls| && Same(calls[i], d);
      assert more[i] == calls[i];
    }
    assert more[|calls|] == c;
  }

  lemma KeysAgree(node: Node, c: ToolCall, d: ToolCall)
    requires Effective(node, c) && Effective(node, d) && Valid(c.args) && Valid(d.args)
    ensures Key(c) == Key(d) <==> Same(c, d)
  {
    DedupeKeyIsExact(c.name, ToolArgs(c.args), d.name, ToolArgs(d.args));
  }

  lemma SideAppend(log: seq<Request>, request: Request)
    ensures SideRequests(log + [request])
            == SideRequests(log) + (if request.tool in SIDE_EFFECT_TOOLS then [request] else [])
  {
    assert (log + [request])[..|log|] == log;
  }

  lemma OtherInvocation(node: Node, w: World, log: seq<Request>, tool: string, args: Json)
    requires tool !in SIDE_EFFECT_TOOLS
    ensures SideRequests(Invoke(node, w, log, tool, args).1) == SideRequests(log)
  {
    match node.schema(tool, args)
    case Refused(_) =>
    case Passed(members) =>
      var request := Request(tool, WithSession(members, node.sid));
      SideAppend(log, request);
      SideAppend(log + [request], request);
  }

  /** Calls of other tools change neither the cache nor the side-effecting requests. */
  lemma OtherCall(node: Node, w: World, cache: Cache, log: seq<Request>, c: ToolCall)
    requires !Effective(node, c)
    ensures var (_, cache', log') := OnCall(node, w, cache, log, c);
            cache' == cache && SideRequests(log') == SideRequests(log)
  {
    if c.name in node.tools { OtherInvocation(node, w, log, c.name, ToolArgs(c.args)); }
  }

  /** An executed call of a side-effecting tool adds its request, if the schema lets it through. */
  lemma EffectiveCall(node: Node, w: World, cache: Cache, log: seq<Request>, c: ToolCall)
    requires Effective(node, c) && Key(c) !in cache
    ensures SideRequests(OnCall(node, w, cache, log, c).2)
            == SideRequests(log) + (if Passes(node, c) then [ServerRequest(node, c)] else [])
  {
    if Passes(node, c) { SideAppend(log, ServerRequest(node, c)); }
  }

  lemma PassingNext(node: Node, first: seq<ToolCall>, c: ToolCall)
    ensures ServerRequests(node, Passing(node, first + [c]))
            == ServerRequests(node, Passing(node, first)) + (if Passes(node, c) then [ServerRequest(node, c)] else [])
  {
    assert (first + [c])[..|first|] == first;
  }

  lemma CacheKnowsMore(node: Node, cache: Cache, calls: seq<ToolCall>, c: ToolCall, content: string)
    requires CacheKnows(node, cache, calls) && Effective(node, c) && Valid(c.args)
    ensures CacheKnows(node, cache[Key(c) := content], calls + [c])
  {
    forall d | Effective(node, d) && Valid(d.args)
      ensures Key(d) in cache[Key(c) := content] <==> Seen(calls + [c], d)
    {
      SeenAfter(calls, c, d);
      KeysAgree(node, c, d);
    }
  }

  lemma CacheKnowsSame(node: Node, cache: Cache, calls: seq<ToolCall>, c: ToolCall)
    requires CacheKnows(node, cache, calls) && (Effective(node, c) ==> Seen(calls, c))
    ensures CacheKnows(node, cache, calls + [c])
  {
    forall d | Effective(node, d) && Valid(d.args) ensures Seen(calls + [c], d) <==> Seen(calls, d) {
      SeenAfter(calls, c, d);
      if Same(c, d) {
        var i :| 0 <= i < |calls| && Same(calls[i], c);
        assert Same(calls[i], d);
      }
    }
  }

  lemma CallKeepsInv(node: Node, w: World, cache: Cache, log: seq<Request>, calls: seq<ToolCall>, contents: seq<string>,
                     c: ToolCall)
    requires Inv(node, cache, log, calls, contents) && Valid(c.args)
    ensures var (content, cache', log') := OnCall(node, w, cache, log, c);
            Inv(node, cache', log', calls + [c], contents + [content])
  {
    var (content, cache', log') := OnCall(node, w, cache, log, c);
    assert (calls + [c])[..|calls|] == calls;
    if !Effective(node, c) {
      OtherCall(node, w, cache, log, c);
      CacheKnowsSame(node, cache, calls, c);
      assert FirstCalls(node, calls + [c]) == FirstCalls(node, calls);
    } else if Key(c) in cache {
      CacheKnowsSame(node, cache, calls, c);
      assert FirstCalls(node, calls + [c]) == FirstCalls(node, calls);
    } else {
      CacheKnowsMore(node, cache, calls, c, content);
      EffectiveCall(node, w, cache, log, c);
      assert FirstCalls(node, calls + [c]) == FirstCalls(node, calls) + [c];
      PassingNext(node, FirstCalls(node, calls), c);
    }
  }

  ghost predicate ValidCalls(calls: seq<ToolCall>) {
    forall i :: 0 <= i < |calls| ==> Valid(calls[i].args)
  }

  lemma LastCallKeepsInv(node: Node, w: World, cache: Cache, log: seq<Request>, before: seq<ToolCall>,
                         results: seq<string>, calls: seq<ToolCall>, contents: seq<string>, cache1: Cache, log1: seq<Request>)
    requires calls != [] && Valid(calls[|calls| - 1].args)
    requires OnCalls(node, w, cache, log, calls[..|calls| - 1]) == (contents, cache1, log1)
    requires Inv(node, cache1, log1, before + calls[..|calls| - 1], results + contents)
    ensures var (contents', cache', log') := OnCalls(node, w, cache, log, calls);
            Inv(node, cache', log', before + calls, results + contents')
  {
    var n := |calls| - 1;
    var (content, cache2, log2) := OnCall(node, w, cache1, log1, calls[n]);
    CallKeepsInv(node, w, cache1, log1, before + calls[..n], results + contents, calls[n]);
    assert OnCalls(node, w, cache, log, calls) == (contents + [content], cache2, log2);
    assert before + calls[..n] + [calls[n]] == before + calls;
    assert results + contents + [content] == results + (contents + [content]);
  }

  lemma {:induction false} CallsKeepInv(node: Node, w: World, cache: Cache, log: seq<Request>, before: seq<ToolCall>,
                                        results: seq<string>, calls: seq<ToolCall>)
    requires Inv(node, cache, log, before, results) && ValidCalls(calls)
    ensures var (contents, cache', log') := OnCalls(node, w, cache, log, calls);
            Inv(node, cache', log', before + calls, results + contents)
    decreases |calls|
  {
    if calls == [] {
      assert before + calls == before && results + [] == results;
    } else {
      var (contents, cache1, log1) := OnCalls(node, w, cache, log, calls[..|calls| - 1]);
      CallsKeepInv(node, w, cache, log, before, results, calls[..|calls| - 1]);
      LastCallKeepsInv(node, w, cache, log, before, results, calls, contents, cache1, log1);
    }
  }

  // ---- Main results ----

  ghost predicate RunInv(node: Node, question: string, maxIterations: int, r: Run) {
    && Inv(node, r.cache, r.log, AllCalls(r.rounds), AllContents(r.rounds))
    && (forall i :: 0 <= i < |r.rounds| ==> Complete(r.rounds[i]))
    && r.messages == Transcript(question, r.rounds)
    && r.llmSteps == |r.rounds| == r.iteration
    && (r.rounds != [] ==> |r.rounds| <= maxIterations)
  }

  lemma RoundKeepsInv(node: Node, w: World, question: string, maxIterations: int, r: Run, calls: seq<ToolCall>)
    requires RunInv(node, question, maxIterations, r) && r.iteration < maxIterations
    requires calls == w.model(r.llmSteps) && calls != [] && ValidCalls(calls)
    ensures RunInv(node, question, maxIterations, Answer(node, w, Ask(w, r), calls))
  {
    var (contents, cache, log) := OnCalls(node, w, r.cache, r.log, calls);
    CallsKeepInv(node, w, r.cache, r.log, AllCalls(r.rounds), AllContents(r.rounds), calls);
    var rounds := r.rounds + [Round(calls, contents)];
    assert rounds[..|r.rounds|] == r.rounds;
    assert AllCalls(rounds) == AllCalls(r.rounds) + calls;
    assert AllContents(rounds) == AllContents(r.rounds) + contents;
  }

  /** What holds at the end of a run, with `r` all but the last step of it. */
  ghost predicate Finished(node: Node, w: World, question: string, maxIterations: int, end: Run) {
    exists r :: RunInv(node, question, maxIterations, r) && end == Ask(w, r)
                && (w.model(r.llmSteps) == [] || r.iteration >= maxIterations)
  }

  lemma {:induction false} FinishKeepsInv(node: Node, w: World, question: string, maxIterations: int, r: Run)
    requires RunInv(node, question, maxIterations, r) && forall n :: ValidCalls(w.model(n))
    ensures Finished(node, w, question, maxIterations, Finish(node, w, maxIterations, r))
    decreases maxIterations - r.iteration
  {
    var calls := w.model(r.llmSteps);
    if calls != [] && r.iteration < maxIterations {
      RoundKeepsInv(node, w, question, maxIterations, r, calls);
      FinishKeepsInv(node, w, question, maxIterations, Answer(node, w, Ask(w, r), calls));
    }
  }

  lemma RunFinishes(node: Node, w: World, question: string, maxIterations: int)
    requires forall n :: ValidCalls(w.model(n))
    ensures Finished(node, w, question, maxIterations, RunGraph(node, w, question, maxIterations))
  {
    FinishKeepsInv(node, w, question, maxIterations, Initial(question));
  }

  /** Whatever the model emits: every message but the last has each of its calls answered by one tool
      message, in order; there are at most `maxIterations` tool rounds and one more model step; and the
      last message has unanswered calls only when the rounds are used up. */
  lemma EveryCallIsAnswered(node: Node, w: World, question: string, maxIterations: int)
    requires forall n :: ValidCalls(w.model(n))
    ensures var end := RunGraph(node, w, question, maxIterations);
            var rounds := end.rounds;
            && (forall i :: 0 <= i < |rounds| ==> Complete(rounds[i]))
            && end.messages == Transcript(question, rounds) + [AI(w.model(|rounds|))]
            && end.llmSteps == |rounds| + 1
            && (|rounds| == 0 || |rounds| <= maxIterations)
            && (w.model(|rounds|) != [] ==> |rounds| >= maxIterations)
  {
    RunFinishes(node, w, question, maxIterations);
  }

  /** Side effects happen once: the side-effecting requests that reach the server are those of the first
      calls of their kind that the schema lets through, each once and in order, over the whole run. */
  lemma SideEffectsHappenOnce(node: Node, w: World, question: string, maxIterations: int)
    requires forall n :: ValidCalls(w.model(n))
    ensures var end := RunGraph(node, w, question, maxIterations);
            SideRequests(end.log) == ServerRequests(node, Passing(node, FirstCalls(node, AllCalls(end.rounds))))
  {
    RunFinishes(node, w, question, maxIterations);
  }

  /** All calls of a side-effecting tool with the same arguments get the same result. */
  lemma DuplicatesShareTheResult(node: Node, w: World, question: string, maxIterations: int, i: nat, j: nat)
    requires forall n :: ValidCalls(w.model(n))
    requires var calls := AllCalls(RunGraph(node, w, question, maxIterations).rounds);
             i < |calls| && j < |calls| && Effective(node, calls[i]) && Same(calls[i], calls[j])
    ensures var contents := AllContents(RunGraph(node, w, question, maxIterations).rounds);
            i < |contents| && j < |contents| && contents[i] == contents[j]
  {
    RunFinishes(node, w, question, maxIterations);
  }

  // ---- Where every answer comes from ----

  /** The attempts begin after `n` requests, are in the log, and yield `content`. */
  ghost predicate ResultAt(node: Node, w: World, log: seq<Request>, n: nat, call: ToolCall, content: string) {
    && n <= |log|
    && var (reply, asked) := Invoke(node, w, log[..n], call.name, ToolArgs(call.args));
       asked <= log && content == Content(call, reply)
  }

  ghost predicate Answered(node: Node, w: World, log: seq<Request>, call: ToolCall, content: string) {
    if call.name !in node.tools then content == "Tool '" + call.name + "' is not available."
    else exists n: nat :: ResultAt(node, w, log, n, call, content)
  }

  ghost predicate AnswerInv(
    node: Node, w: World, cache: Cache, log: seq<Request>, calls: seq<ToolCall>, contents: seq<string>)
  {
    && |contents| == |calls|
    && (forall i :: 0 <= i < |calls| ==> Answered(node, w, log, calls[i], contents[i]))
    && (forall c :: Effective(node, c) && Valid(c.args) && Key(c) in cache ==> Answered(node, w, log, c, cache[Key(c)]))
  }

  lemma StaysAnswered(node: Node, w: World, log: seq<Request>, log': seq<Request>, call: ToolCall, content: string)
    requires Answered(node, w, log, call, content) && log <= log'
    ensures Answered(node, w, log', call, content)
  {
    if call.name in node.tools {
      var n: nat :| ResultAt(node, w, log, n, call, content);
      assert log'[..n] == log[..n];
      assert ResultAt(node, w, log', n, call, content);
    }
  }

  lemma AlikeAnswered(node: Node, w: World, log: seq<Request>, c: ToolCall, d: ToolCall, content: string)
    requires Answered(node, w, log, c, content) && Same(c, d)
    ensures Answered(node, w, log, d, content)
  {
    if c.name in node.tools {
      var n: nat :| ResultAt(node, w, log, n, c, content);
      assert ResultAt(node, w, log, n, d, content);
    }
  }

  lemma LogGrows(node: Node, w: World, cache: Cache, log: seq<Request>, call: ToolCall)
    ensures log <= OnCall(node, w, cache, log, call).2
  {
  }

  /** The call just made is answered. */
  lemma CallIsAnswered(node: Node, w: World, cache: Cache, log: seq<Request>, c: ToolCall)
    requires Valid(c.args)
    requires Effective(node, c) && Key(c) in cache ==> Answered(node, w, log, c, cache[Key(c)])
    ensures var (content, _, log') := OnCall(node, w, cache, log, c); Answered(node, w, log', c, content)
  {
    var (content, _, log') := OnCall(node, w, cache, log, c);
    if c.name in node.tools && !(c.name in SIDE_EFFECT_TOOLS && Key(c) in cache) {
      assert log'[..|log|] == log by { LogGrows(node, w, cache, log, c); }
      assert ResultAt(node, w, log', |log|, c, content);
    }
  }

  lemma KeptIsAnswered(node: Node, w: World, cache: Cache, log: seq<Request>, c: ToolCall, d: ToolCall)
    requires Valid(c.args) && Effective(node, d) && Valid(d.args)
    requires var (content, cache', log') := OnCall(node, w, cache, log, c);
             && Answered(node, w, log', c, content) && Key(d) in cache'
             && (Key(d) in cache ==> Answered(node, w, log, d, cache[Key(d)]))
    ensures var (_, cache', log') := OnCall(node, w, cache, log, c); Answered(node, w, log', d, cache'[Key(d)])
  {
    var (content, cache', log') := OnCall(node, w, cache, log, c);
    LogGrows(node, w, cache, log, c);
    AnswerOfCall(node, w, cache, log, c);
    if Key(d) in cache {
      StaysAnswered(node, w, log, log', d, cache[Key(d)]);
    } else {
      KeysAgree(node, c, d);
      AlikeAnswered(node, w, log', c, d, content);
    }
  }

  lemma CallKeepsAnswers(node: Node, w: World, cache: Cache, log: seq<Request>, calls: seq<ToolCall>,
                         contents: seq<string>, c: ToolCall)
    requires AnswerInv(node, w, cache, log, calls, contents) && Valid(c.args)
    ensures var (content, cache', log') := OnCall(node, w, cache, log, c);
            AnswerInv(node, w, cache', log', calls + [c], contents + [content])
  {
    var (content, cache', log') := OnCall(node, w, cache, log, c);
    LogGrows(node, w, cache, log, c);
    CallIsAnswered(node, w, cache, log, c);
    forall i | 0 <= i < |calls| ensures Answered(node, w, log', calls[i], contents[i]) {
      StaysAnswered(node, w, log, log', calls[i], contents[i]);
    }
    forall d | Effective(node, d) && Valid(d.args) && Key(d) in cache' ensures Answered(node, w, log', d, cache'[Key(d)]) {
      KeptIsAnswered(node, w, cache, log, c, d);
    }
  }

  lemma {:induction false} CallsKeepAnswers(node: Node, w: World, cache: Cache, log: seq<Request>, before: seq<ToolCall>,
                                            results: seq<string>, calls: seq<ToolCall>)
    requires AnswerInv(node, w, cache, log, before, results) && ValidCalls(calls)
    ensures var (contents, cache', log') := OnCalls(node, w, cache, log, calls);
            AnswerInv(node, w, cache', log', before + calls, results + contents)
    decreases |calls|
  {
    if calls == [] {
      assert before + calls == before && results + [] == results;
    } else {
      var n := |calls| - 1;
      var (contents, cache1, log1) := OnCalls(node, w, cache, log, calls[..n]);
      CallsKeepAnswers(node, w, cache, log, before, results, calls[..n]);
      CallKeepsAnswers(node, w, cache1, log1, before + calls[..n], results + contents, calls[n]);
      var content := OnCall(node, w, cache1, log1, calls[n]).0;
      assert before + calls[..n] + [calls[n]] == before + calls;
      assert results + contents + [content] == results + (contents + [content]);
    }
  }

  lemma {:induction false} FinishKeepsAnswers(node: Node, w: World, maxIterations: int, r: Run)
    requires forall n :: ValidCalls(w.model(n))
    requires AnswerInv(node, w, r.cache, r.log, AllCalls(r.rounds), AllContents(r.rounds))
    ensures var end := Finish(node, w, maxIterations, r);
            AnswerInv(node, w, end.cache, end.log, AllCalls(end.rounds), AllContents(end.rounds))
    decreases maxIterations - r.iteration
  {
    var calls := w.model(r.llmSteps);
    if calls != [] && r.iteration < maxIterations {
      var (contents, cache, log) := OnCalls(node, w, r.cache, r.log, calls);
      CallsKeepAnswers(node, w, r.cache, r.log, AllCalls(r.rounds), AllContents(r.rounds), calls);
      assert (r.rounds + [Round(calls, contents)])[..|r.rounds|] == r.rounds;
      FinishKeepsAnswers(node, w, maxIterations, Answer(node, w, Ask(w, r), calls));
    }
  }

  /** Over a whole run every call of a known tool is answered with the outcome of attempts for that very call
      or one equal to it, which are in the server's log; every other call is told that there is no such tool. */
  lemma EveryAnswerIsTheTools(node: Node, w: World, question: string, maxIterations: int)
    requires forall n :: ValidCalls(w.model(n))
    ensures var end := RunGraph(node, w, question, maxIterations);
            var (calls, contents) := (AllCalls(end.rounds), AllContents(end.rounds));
            |contents| == |calls| && forall i :: 0 <= i < |calls| ==> Answered(node, w, end.log, calls[i], contents[i])
  {
    FinishKeepsAnswers(node, w, maxIterations, Initial(question));
  }

  /** The first calls are pairwise different and stand for every effective call. */
  lemma {:induction false} FirstCallsRepresent(node: Node, calls: seq<ToolCall>)
    ensures forall i, j :: 0 <= i < j < |FirstCalls(node, calls)| ==>
              !Same(FirstCalls(node, calls)[i], FirstCalls(node, calls)[j])
    ensures forall d :: Effective(node, d) ==> (Seen(FirstCalls(node, calls), d) <==> Seen(calls, d))
    ensures forall d :: d in FirstCalls(node, calls) ==> d in calls && Effective(node, d)
    decreases |calls|
  {
    if calls != [] {
      var earlier, c := calls[..|calls| - 1], calls[|calls| - 1];
      var first := FirstCalls(node, earlier);
      assert calls == earlier + [c];
      FirstCallsRepresent(node, earlier);
      assert FirstCalls(node, calls) == if Effective(node, c) && !Seen(earlier, c) then first + [c] else first;
      forall d | Effective(node, d) ensures Seen(FirstCalls(node, calls), d) <==> Seen(calls, d) {
        SeenAfter(earlier, c, d);
        SeenAfter(first, c, d);
        if Same(c, d) && Seen(earlier, c) {
          var i :| 0 <= i < |earlier| && Same(earlier[i], c);
          assert Same(earlier[i], d);
        }
      }
    }
  }

  ghost predicate NoRepeats(requests: seq<Request>) {
    forall i, j :: 0 <= i < j < |requests| ==> requests[i] != requests[j]
  }

  /** Two different calls of one side-effecting tool that the server cannot tell apart: the schema leaves
      the same arguments of both, the session id aside. */
  ghost predicate Indistinct(node: Node, c: ToolCall, d: ToolCall) {
    && Effective(node, c) && c.name == d.name && !Same(c, d)
    && Passes(node, c) && Passes(node, d) && ServerRequest(node, c) == ServerRequest(node, d)
  }

  ghost predicate PairwiseDifferent(calls: seq<ToolCall>) {
    forall i, j :: 0 <= i < j < |calls| ==> !Same(calls[i], calls[j])
  }

  lemma {:induction false} PassingStaysDifferent(node: Node, calls: seq<ToolCall>)
    requires PairwiseDifferent(calls)
    ensures PairwiseDifferent(Passing(node, calls))
    decreases |calls|
  {
    if calls != [] {
      var n := |calls| - 1;
      PassingStaysDifferent(node, calls[..n]);
      forall c | c in Passing(node, calls[..n]) ensures !Same(c, calls[n]) {
        var i :| 0 <= i < n && calls[..n][i] == c;
        assert calls[i] == c;
      }
    }
  }

  /** Calls that are alike pass alike and ask the server alike. */
  lemma SameIsAlike(node: Node, c: ToolCall, d: ToolCall)
    requires Same(c, d)
    ensures Passes(node, c) <==> Passes(node, d)
    ensures Passes(node, c) ==> ServerRequest(node, c) == ServerRequest(node, d)
  {
  }

  lemma Representative(node: Node, calls: seq<ToolCall>, c: ToolCall) returns (p: nat)
    requires c in calls && Effective(node, c) && Passes(node, c)
    ensures var passing := Passing(node, FirstCalls(node, calls)); p < |passing| && Same(passing[p], c)
  {
    var first := FirstCalls(node, calls);
    FirstCallsRepresent(node, calls);
    var k :| 0 <= k < |calls| && calls[k] == c;
    assert Same(calls[k], c) && Seen(calls, c);
    var i :| 0 <= i < |first| && Same(first[i], c);
    SameIsAlike(node, first[i], c);
    assert first[i] in Passing(node, first);
    p :| 0 <= p < |Passing(node, first)| && Passing(node, first)[p] == first[i];
  }

  lemma IndistinctRepeats(node: Node, calls: seq<ToolCall>, c: ToolCall, d: ToolCall)
    requires c in calls && d in calls && Indistinct(node, c, d)
    ensures !NoRepeats(ServerRequests(node, Passing(node, FirstCalls(node, calls))))
  {
    var passing := Passing(node, FirstCalls(node, calls));
    var p := Representative(node, calls, c);
    var q := Representative(node, calls, d);
    SameIsAlike(node, passing[p], c);
    SameIsAlike(node, passing[q], d);
    assert p != q && ServerRequests(node, passing)[p] == ServerRequests(node, passing)[q];
  }

  lemma NoRepeatsExactly(node: Node, calls: seq<ToolCall>)
    ensures NoRepeats(ServerRequests(node, Passing(node, FirstCalls(node, calls))))
            <==> forall c, d :: c in calls && d in calls ==> !Indistinct(node, c, d)
  {
    var first := FirstCalls(node, calls);
    var passing := Passing(node, first);
    FirstCallsRepresent(node, calls);
    PassingStaysDifferent(node, first);
    if c, d :| c in calls && d in calls && Indistinct(node, c, d) {
      IndistinctRepeats(node, calls, c, d);
    }
    if !NoRepeats(ServerRequests(node, passing)) {
      var i, j :| 0 <= i < j < |passing| && ServerRequests(node, passing)[i] == ServerRequests(node, passing)[j];
      assert passing[i] in passing && passing[j] in passing;
      assert !Same(passing[i], passing[j]);
      assert Indistinct(node, passing[i], passing[j]);
    }
  }

  /** On the server itself no side-effecting request arrives twice if and only if no two answered calls are
      indistinct: the key is taken of the arguments that the model emits, before the schema and the session
      id change them. */
  lemma ServerSeesNoRepeatExactly(node: Node, w: World, question: string, maxIterations: int)
    requires forall n :: ValidCalls(w.model(n))
    ensures var end := RunGraph(node, w, question, maxIterations);
            NoRepeats(SideRequests(end.log))
            <==> forall c, d :: c in AllCalls(end.rounds) && d in AllCalls(end.rounds) ==> !Indistinct(node, c, d)
  {
    SideEffectsHappenOnce(node, w, question, maxIterations);
    NoRepeatsExactly(node, AllCalls(RunGraph(node, w, question, maxIterations).rounds));
  }

  /** A model that emits these calls and then answers. */
  function Emits(calls: seq<ToolCall>, w: World): World {
    w.(model := (n: nat) => if n == 0 then calls else [])
  }

  lemma OneRound(node: Node, w: World, question: string, maxIterations: int, calls: seq<ToolCall>)
    requires maxIterations >= 1 && calls != []
    ensures AllCalls(RunGraph(node, Emits(calls, w), question, maxIterations).rounds) == calls
  {
    var w' := Emits(calls, w);
    var r := Initial(question);
    var r1 := Answer(node, w', Ask(w', r), calls);
    assert RunGraph(node, w', question, maxIterations) == Finish(node, w', maxIterations, r1) == Ask(w', r1);
    assert r1.rounds[..0] == [];
  }

  lemma TwoFirstCalls(node: Node, c: ToolCall, d: ToolCall)
    requires Effective(node, c) && Effective(node, d) && !Same(c, d)
    ensures FirstCalls(node, [c, d]) == [c, d]
  {
    assert [c, d][..1] == [c] && [c][..0] == [];
    assert FirstCalls(node, [c]) == [c];
  }

  lemma TwoPassing(node: Node, c: ToolCall, d: ToolCall)
    requires Passes(node, c) && Passes(node, d)
    ensures Passing(node, [c, d]) == [c, d]
  {
    assert [c, d][..1] == [c] && [c][..0] == [];
    assert Passing(node, [c]) == [c];
  }

  lemma PairReaches(node: Node, c: ToolCall, d: ToolCall)
    requires Indistinct(node, c, d)
    ensures ServerRequests(node, Passing(node, FirstCalls(node, [c, d]))) == [ServerRequest(node, c), ServerRequest(node, c)]
  {
    assert Passing(node, FirstCalls(node, [c, d])) == [c, d] by {
      TwoFirstCalls(node, c, d);
      TwoPassing(node, c, d);
    }
    TwoRequests(node, c, d);
  }

  lemma TwoRequests(node: Node, c: ToolCall, d: ToolCall)
    requires Passes(node, c) && Passes(node, d)
    ensures ServerRequests(node, [c, d]) == [ServerRequest(node, c), ServerRequest(node, d)]
  {
    assert forall x :: x in [c, d] ==> Passes(node, x);
  }

  lemma EmitsValidCalls(calls: seq<ToolCall>, w: World)
    requires ValidCalls(calls)
    ensures forall n :: ValidCalls(Emits(calls, w).model(n))
  {
  }

  /** Every indistinct pair of calls makes a run in which the server gets the same side-effecting request
      twice. */
  lemma IndistinctCallsReachTheServerTwice(
    node: Node, w: World, question: string, maxIterations: int, c: ToolCall, d: ToolCall)
    requires maxIterations >= 1 && Valid(c.args) && Valid(d.args) && Indistinct(node, c, d)
    ensures SideRequests(RunGraph(node, Emits([c, d], w), question, maxIterations).log)
            == [ServerRequest(node, c), ServerRequest(node, c)]
  {
    var calls := [c, d];
    OneRound(node, w, question, maxIterations, calls);
    EmitsValidCalls(calls, w);
    PairReaches(node, c, d);
    SideEffectsHappenOnce(node, Emits(calls, w), question, maxIterations);
  }

  /** The schema takes no notice of an argument: `session_id`, which is left out of every schema, or a name
      that is not among the tool's properties. */
  ghost predicate Ignores(node: Node, tool: string, field: string) {
    forall members: map<string, Json> :: node.schema(tool, Obj(members)) == node.schema(tool, Obj(members - {field}))
  }

  /** Such pairs exist for every side-effecting tool: the same arguments without and with an argument that
      the schema ignores. */
  lemma IgnoredArgumentDefeatsTheKey(node: Node, tool: string, members: map<string, Json>, field: string, id: string)
    requires tool in node.tools && tool in SIDE_EFFECT_TOOLS && field !in members
    requires Valid(Obj(members)) && node.schema(tool, Obj(members)).Passed? && Ignores(node, tool, field)
    ensures var c, d := ToolCall(tool, Obj(members), id), ToolCall(tool, Obj(members[field := Null]), id);
            Valid(d.args) && Indistinct(node, c, d)
  {
    var more := members[field := Null];
    assert more - {field} == members && members - {field} == members;
    assert ToolArgs(Obj(members)) == Obj(members) && ToolArgs(Obj(more)) == Obj(more);
    assert field in more;
    assert node.schema(tool, Obj(more)) == node.schema(tool, Obj(more - {field}));
  }
}
