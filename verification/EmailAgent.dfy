/** The tool-calling loop that answers an email: what it may execute, what it sends and what it accounts for. */
module EmailAgent {
  import opened Options

  // ----- What the model, the tools and the transcript are made of -----

  /** The arguments object of a call, as text, and its template entry as a string. */
  datatype Arguments = Arguments(text: string, template: string)

  /** A requested call; no arguments when their text is not a JSON object. */
  datatype ToolCall = ToolCall(id: string, name: string, arguments: Option<Arguments>)

  datatype Product = Named(name: string) | Unnamed

  /** A tool's return value: a dictionary ("" for no error), something empty, or anything else. */
  datatype Value = Record(error: string, queryId: Option<int>, products: seq<Product>) | Empty | Other

  datatype ToolResult = Returned(value: Value) | Raised(message: string)

  datatype Reply = Reply(content: string, calls: seq<ToolCall>) | Unavailable

  datatype Message =
    | Text(role: string, content: string)
    | Calling(content: string, calls: seq<ToolCall>)
    | Tool(id: string, content: string)

  /** One thing that happened: the model was asked, or a call it wanted was refused or executed. */
  datatype Event =
    | Asked(reply: Reply)
    | Refused(call: ToolCall, reason: string)
    | Executed(call: ToolCall, result: ToolResult)

  datatype Outcome = Outcome(
    answer: string, path: string, templates: seq<string>,
    products: seq<string>, queryIds: seq<int>, toolCalls: seq<string>)

  const AGENT_MAX_STEPS := 8
  const AGENT_TOOL_RESULT_MAX_CHARS := 20000
  const TRUNCATED := "...\"(truncated)\""
  const UNFINISHED := "I couldn't finish answering that. Try asking again with a more specific question."
  const NOT_AN_OBJECT := "Tool arguments must be a JSON object."
  const LOCKED :=
    "run_query is locked: call search_data_products and list_query_templates first, and use a template if one fits."

  /** What Python's str.strip() removes. */
  predicate IsSpace(c: char) {
    || '\t' <= c <= '\r'
    || '\U{1C}' <= c <= ' '
    || c == '\U{85}'
    || c == '\U{A0}'
    || c == '\U{1680}'
    || '\U{2000}' <= c <= '\U{200A}'
    || c == '\U{2028}'
    || c == '\U{2029}'
    || c == '\U{202F}'
    || c == '\U{205F}'
    || c == '\U{3000}'
  }

  /** The same characters, one by one. */
  const WHITE_SPACE: set<char> := {
    '\t', '\n', '\U{0B}', '\U{0C}', '\r', '\U{1C}', '\U{1D}', '\U{1E}', '\U{1F}', ' ', '\U{85}', '\U{A0}', '\U{1680}',
    '\U{2000}', '\U{2001}', '\U{2002}', '\U{2003}', '\U{2004}', '\U{2005}', '\U{2006}', '\U{2007}', '\U{2008}',
    '\U{2009}', '\U{200A}', '\U{2028}', '\U{2029}', '\U{202F}', '\U{205F}', '\U{3000}'
  }

  lemma WhiteSpaceIs(c: char)
    ensures IsSpace(c) <==> c in WHITE_SPACE
  {}

  function Strip(s: string): (r: string)
    ensures r == "" <==> forall i :: 0 <= i < |s| ==> IsSpace(s[i])
    ensures r != "" ==> !IsSpace(r[0]) && !IsSpace(r[|r| - 1])
    ensures |r| <= |s|
  {
    if s == "" then s
    else if IsSpace(s[0]) then
      var r := Strip(s[1..]);
      assert s == [s[0]] + s[1..];
      r
    else if IsSpace(s[|s| - 1]) then Strip(s[..|s| - 1])
    else s
  }

  /** What is left is the middle of the text, with nothing but white space on either side. */
  lemma {:induction false} StripIsMiddle(s: string) returns (a: nat, b: nat)
    ensures a <= b <= |s| && Strip(s) == s[a..b]
    ensures (forall i :: 0 <= i < a ==> IsSpace(s[i])) && (forall i :: b <= i < |s| ==> IsSpace(s[i]))
    decreases |s|
  {
    hide IsSpace;
    if s == "" {
      a, b := 0, 0;
    } else if IsSpace(s[0]) {
      a, b := StripIsMiddle(s[1..]);
      assert s[1..][a..b] == s[a + 1..b + 1];
      forall i | 0 <= i < a + 1 ensures IsSpace(s[i]) { assert i > 0 ==> s[i] == s[1..][i - 1]; }
      forall i | b + 1 <= i < |s| ensures IsSpace(s[i]) { assert s[i] == s[1..][i - 1]; }
      a, b := a + 1, b + 1;
    } else if IsSpace(s[|s| - 1]) {
      a, b := StripIsMiddle(s[..|s| - 1]);
      assert s[..|s| - 1][a..b] == s[a..b];
      forall i | b <= i < |s| ensures IsSpace(s[i]) { assert i < |s| - 1 ==> s[i] == s[..|s| - 1][i]; }
    } else {
      a, b := 0, |s|;
    }
  }

  function Capped(content: string): string {
    if |content| > AGENT_TOOL_RESULT_MAX_CHARS then content[..AGENT_TOOL_RESULT_MAX_CHARS] + TRUNCATED else content
  }

  function IdOf(call: ToolCall): string {
    if call.id == "" then call.name else call.id
  }

  // ----- What a trace says -----

  /** The i-th event is the call of a tool with that name which returned. */
  predicate Returns(trace: seq<Event>, i: nat, name: string) {
    i < |trace| && trace[i].Executed? && trace[i].call.name == name && trace[i].result.Returned?
  }

  /** ... and returned a dictionary without an error. */
  predicate Succeeds(trace: seq<Event>, i: nat, name: string) {
    Returns(trace, i, name) && trace[i].result.value.Record? && trace[i].result.value.error == ""
  }

  ghost predicate HasReturned(trace: seq<Event>, name: string) {
    exists i: nat :: Returns(trace, i, name)
  }

  ghost predicate HasSucceeded(trace: seq<Event>, name: string) {
    exists i: nat :: Succeeds(trace, i, name)
  }

  /** Freeform SQL is unlocked by a search and a listing that came back. */
  ghost predicate Unlocked(trace: seq<Event>) {
    HasReturned(trace, "search_data_products") && HasReturned(trace, "list_query_templates")
  }

  /** Everything f picks out of the events, in their order. */
  function Collect<T>(trace: seq<Event>, f: Event -> seq<T>): seq<T> {
    if trace == [] then [] else Collect(trace[..|trace| - 1], f) + f(trace[|trace| - 1])
  }

  function CallName(e: Event): seq<string> {
    if e.Asked? then [] else [e.call.name]
  }

  function ReplyOf(e: Event): seq<Reply> {
    if e.Asked? then [e.reply] else []
  }

  function QueryId(e: Event): seq<int> {
    if e.Executed? && (e.call.name == "run_query" || e.call.name == "run_query_template") && e.result.Returned?
       && e.result.value.Record? && e.result.value.queryId.Some?
    then [e.result.value.queryId.value]
    else []
  }

  function TemplateRun(e: Event): seq<string> {
    if Succeeds([e], 0, "run_query_template") && e.call.arguments.Some? && e.call.arguments.value.template != ""
    then [e.call.arguments.value.template]
    else []
  }

  function ProductName(product: Product): seq<string> {
    if product.Named? && product.name != "" then [product.name] else []
  }

  function ProductNames(products: seq<Product>): seq<string> {
    if products == [] then []
    else ProductNames(products[..|products| - 1]) + ProductName(products[|products| - 1])
  }

  function FirstFive<T>(s: seq<T>): seq<T> {
    if |s| > 5 then s[..5] else s
  }

  function ProductsFound(e: Event): seq<string> {
    if Returns([e], 0, "search_data_products") &&
      e.result.value.Record? then ProductNames(FirstFive(e.result.value.products)) else []
  }

  /** What a call leaves in the transcript. */
  function Said(e: Event, dumps: Value -> string): seq<Message> {
    match e
    case Asked(Reply(content, calls)) => if calls == [] then [] else [Calling(content, calls)]
    case Asked(Unavailable) => []
    case Refused(call, reason) => [Tool(IdOf(call), Capped(dumps(Record(reason, None, []))))]
    case Executed(call, Returned(value)) => [Tool(IdOf(call), Capped(dumps(value)))]
    case Executed(call, Raised(message)) =>
      [Tool(IdOf(call), Capped(dumps(Record(if message == "" then "The tool failed." else message, None, []))))]
  }

  function Transcript(start: seq<Message>, trace: seq<Event>, dumps: Value -> string): seq<Message> {
    if trace == [] then start
    else Transcript(start, trace[..|trace| - 1], dumps) + Said(trace[|trace| - 1], dumps)
  }

  /** The events by which calls were handled, in order. */
  function Handling(e: Event): seq<Event> {
    if e.Asked? then [] else [e]
  }

  /** How many tool messages there are. */
  function ToolsIn(messages: seq<Message>): nat {
    if messages == [] then 0
    else ToolsIn(messages[..|messages| - 1]) + if messages[|messages| - 1].Tool? then 1 else 0
  }

  /** Each message with k calls is followed by the k answers in order and by no further one; the answers of the whole
      transcript are to the events by which its calls were handled, in order. */
  ghost predicate Complete(messages: seq<Message>, handled: seq<Event>, dumps: Value -> string) {
    forall p :: 0 <= p < |messages| && messages[p].Calling? ==>
      Answered(messages, p, |messages[p].calls|, handled, dumps)
  }

  ghost predicate Answered(messages: seq<Message>, p: nat, k: nat, handled: seq<Event>, dumps: Value -> string)
    requires p < |messages| && messages[p].Calling? && k <= |messages[p].calls|
  {
    var n := ToolsIn(messages[..p]);
    && p + k < |messages| && n + k <= |handled|
    && (forall j :: 0 <= j < k ==> AnswerTo(messages[p].calls[j], handled[n + j], messages[p + 1 + j], dumps))
    && (p + k + 1 < |messages| ==> !messages[p + k + 1].Tool?)
  }

  /** The answer to a call is what its event brought, printed: all of
      it, or its first twenty thousand characters and a mark. */
  predicate AnswerTo(call: ToolCall, e: Event, m: Message, dumps: Value -> string) {
    && !e.Asked? && e.call == call
    && m.Tool? && m.id == (if call.id != "" then call.id else call.name)
    && match e
       case Refused(_, reason) => Prints(m.content, dumps(Record(reason, None, [])))
       case Executed(_, Returned(value)) => Prints(m.content, dumps(value))
       case Executed(_, Raised("")) => Prints(m.content, dumps(Record("The tool failed.", None, [])))
       case Executed(_, Raised(message)) => Prints(m.content, dumps(Record(message, None, [])))
       case _ => false
  }

  predicate Prints(content: string, printed: string) {
    if |printed| <= 20000 then content == printed
    else |content| == 20016 && content[..20000] == printed[..20000] && content[20000..] == "...\"(truncated)\""
  }

  /** The members of s, each where it occurs first. */
  function Distinct(s: seq<string>): seq<string> {
    if s == [] then []
    else
      var d, last := Distinct(s[..|s| - 1]), s[|s| - 1];
      if last in d then d else d + [last]
  }

  /** Distinct keeps every value once, in the order in which the values first occur. */
  lemma {:induction false} DistinctIsFirstSeen(s: seq<string>)
    ensures forall x :: x in Distinct(s) <==> x in s
    ensures forall i, j :: 0 <= i < j < |Distinct(s)| ==> Distinct(s)[i] != Distinct(s)[j]
    ensures forall i, j :: 0 <= i < j < |Distinct(s)| ==> FirstAt(s, Distinct(s)[i]) < FirstAt(s, Distinct(s)[j])
  {
    if s != [] {
      var init, last := s[..|s| - 1], s[|s| - 1];
      assert s == init + [last];
      DistinctIsFirstSeen(init);
      var d := Distinct(init);
      forall x ensures x in Distinct(s) <==> x in s {
        assert x in s <==> x in init || x == last;
      }
      forall i, j | 0 <= i < j < |Distinct(s)| ensures FirstAt(s, Distinct(s)[i]) < FirstAt(s, Distinct(s)[j]) {
        var x, y := Distinct(s)[i], Distinct(s)[j];
        assert Distinct(s) == if last in d then d else d + [last];
        assert x == d[i];
        assert x in d;
        assert x in init;
        assert y in d || y == last;
        FirstAtGrows(init, last, x);
        FirstAtGrows(init, last, y);
        FirstAtIsFirst(init, x);
      }
    }
  }

  function FirstAt(s: seq<string>, x: string): nat {
    if s == [] || s[0] == x then 0 else 1 + FirstAt(s[1..], x)
  }

  lemma FirstAtIsFirst(s: seq<string>, x: string)
    ensures FirstAt(s, x) <= |s|
    ensures x in s ==> FirstAt(s, x) < |s| && s[FirstAt(s, x)] == x
    ensures forall i :: 0 <= i < FirstAt(s, x) ==> s[i] != x
  {
    if s != [] && s[0] != x {
      FirstAtIsFirst(s[1..], x);
      assert forall i :: 1 <= i < |s| ==> s[i] == s[1..][i - 1];
    }
  }

  lemma FirstAtGrows(s: seq<string>, last: string, x: string)
    ensures x in s ==> FirstAt(s + [last], x) == FirstAt(s, x)
    ensures x !in s && x == last ==> FirstAt(s + [last], x) == |s|
  {
    if s != [] {
      assert (s + [last])[1..] == s[1..] + [last];
      FirstAtGrows(s[1..], last, x);
    }
  }

  // ----- What counts, event by event -----

  /** What an event adds to the account: the calls' names; the ids of queries; the template that ran; and the names
      among the first five products found. */
  lemma WhatCounts(call: ToolCall, result: ToolResult, reason: string)
    ensures var e, r := Executed(call, result), Refused(call, reason);
      && CallName(e) == CallName(r) == [call.name]
      && QueryId(r) == [] && TemplateRun(r) == [] && ProductsFound(r) == []
      && QueryId(e) == (
           match (call.name, result)
           case ("run_query", Returned(Record(_, Some(id), _))) => [id]
           case ("run_query_template", Returned(Record(_, Some(id), _))) => [id]
           case _ => [])
      && TemplateRun(e) == (
           match (call.name, call.arguments, result)
           case ("run_query_template", Some(Arguments(_, template)), Returned(Record("", _, _))) =>
             if template == "" then [] else [template]
           case _ => [])
      && ProductsFound(e) == (
           match (call.name, result)
           case ("search_data_products", Returned(Record(_, _, products))) =>
             if |products| <= 5 then ProductNames(products) else ProductNames(products[..5])
           case _ => [])
  {
    assert |"run_query"| == 9 && |"run_query_template"| == 18 && |"search_data_products"| == 20;
  }

  /** The names of products, in order, without the empty ones. */
  lemma {:induction false} NamesOfProducts(some: seq<Product>, more: seq<Product>)
    ensures ProductNames(some + more) == ProductNames(some) + ProductNames(more)
    ensures ProductNames([]) == [] && ProductNames([Unnamed]) == [] && ProductNames([Named("")]) == []
    ensures forall name :: name != "" ==> ProductNames([Named(name)]) == [name]
  {
    forall product ensures ProductNames([product]) == ProductName(product) { assert [product][..0] == []; }
    if more == [] {
      assert some + more == some;
    } else {
      var init := more[..|more| - 1];
      assert (some + more)[..|some + more| - 1] == some + init;
      NamesOfProducts(some, init);
    }
  }

  /** What is picked out of a trace is picked out of its events, one after the other. */
  lemma {:induction false} CollectInOrder<T>(some: seq<Event>, more: seq<Event>, f: Event -> seq<T>)
    ensures Collect(some + more, f) == Collect(some, f) + Collect(more, f)
    ensures Collect([], f) == [] && forall e :: Collect([e], f) == f(e)
  {
    forall e ensures Collect([e], f) == f(e) { assert [e][..0] == []; }
    if more == [] {
      assert some + more == some;
    } else {
      var init := more[..|more| - 1];
      assert (some + more)[..|some + more| - 1] == some + init;
      CollectInOrder(some, init, f);
    }
  }

  // ----- The protocol -----

  /** What the loop is given: the opening messages, the model, the tools (which may remember every earlier event)
      and the printing of values. */
  datatype World = World(
    start: seq<Message>, chat: seq<Message> -> Reply, execute: (seq<Event>, string, Arguments) -> ToolResult,
      dumps: Value -> string, maxSteps: int)

  /** The calls of the last reply that are still to be handled. */
  function Pending(trace: seq<Event>): seq<ToolCall> {
    if trace == [] then []
    else
      match trace[|trace| - 1]
      case Asked(Reply(_, calls)) => calls
      case Asked(Unavailable) => []
      case _ => var before := Pending(trace[..|trace| - 1]); if before == [] then [] else before[1..]
  }

  /** The model gave its answer. */
  predicate IsAnswer(e: Event) {
    e.Asked? && e.reply.Reply? && e.reply.calls == []
  }

  /** The model could not be asked, or a search came back with something that has no products to look at. */
  predicate IsAbort(e: Event) {
    e == Asked(Unavailable) || (e.Executed? && e.call.name == "search_data_products" && e.result == Returned(Other))
  }

  predicate Ended(trace: seq<Event>) {
    trace != [] && (IsAnswer(trace[|trace| - 1]) || IsAbort(trace[|trace| - 1]))
  }

  function Replies(trace: seq<Event>): seq<Reply> {
    Collect(trace, ReplyOf)
  }

  /** This event may come next. */
  ghost predicate Follows(world: World, trace: seq<Event>, e: Event) {
    && !Ended(trace)
    && match e
       case Asked(reply) =>
         && Pending(trace) == []
         && |Replies(trace)| < world.maxSteps
         && reply == world.chat(Transcript(world.start, trace, world.dumps))
       case Refused(call, reason) =>
         && Pending(trace) != [] && call == Pending(trace)[0]
         && if call.arguments.None? then reason == NOT_AN_OBJECT
            else call.name == "run_query" && !Unlocked(trace) && reason == LOCKED
       case Executed(call, result) =>
         && Pending(trace) != [] && call == Pending(trace)[0]
         && call.arguments.Some?
         && (call.name == "run_query" ==> Unlocked(trace))
         && result == world.execute(trace, call.name, call.arguments.value)
  }

  ghost predicate Proper(world: World, trace: seq<Event>) {
    trace == [] || (Proper(world, trace[..|trace| - 1]) && Follows(world, trace[..|trace| - 1], trace[|trace| - 1]))
  }

  /** Nothing is left to do: the model answered, the loop broke off, or every step is used up. */
  predicate Final(world: World, trace: seq<Event>) {
    Ended(trace) || (Pending(trace) == [] && |Replies(trace)| >= world.maxSteps)
  }

  function AnswerOf(trace: seq<Event>): (answer: string)
    ensures answer != ""
  {
    if trace != [] && IsAnswer(trace[|trace| - 1]) && Strip(trace[|trace| - 1].reply.content) != ""
    then Strip(trace[|trace| - 1].reply.content)
    else UNFINISHED
  }

  ghost function PathOf(trace: seq<Event>): string {
    if HasSucceeded(trace, "run_query") then "freeform"
    else if HasSucceeded(trace, "run_query_template") then "template"
    else "none"
  }

  ghost function Summary(trace: seq<Event>): Outcome {
    Outcome(AnswerOf(trace), PathOf(trace), Distinct(Collect(trace, TemplateRun)),
      Distinct(Collect(trace, ProductsFound)), Collect(trace, QueryId), Collect(trace, CallName))
  }

  /** The outcome of a trace, in words: a freeform query that worked makes it freeform, else a template that worked
      makes it a template's; the answer is the last reply without white space around it, if that says anything. */
  lemma OutcomeMeans(trace: seq<Event>)
    ensures var o := Summary(trace);
      && (o.path == "freeform" <==> WorkedOnce(trace, "run_query"))
      && (o.path == "template" <==> !WorkedOnce(trace, "run_query") && WorkedOnce(trace, "run_query_template"))
      && (o.path == "none" <==> !WorkedOnce(trace, "run_query") && !WorkedOnce(trace, "run_query_template"))
    ensures Summary([]).answer ==
            "I couldn't finish answering that. Try asking again with a more specific question."
    ensures trace != [] ==> match trace[|trace| - 1]
      case Asked(Reply(content, calls)) =>
        Summary(trace).answer == if calls != [] || Strip(content) == "" then Summary([]).answer else Strip(content)
      case _ => Summary(trace).answer == Summary([]).answer
  {
    assert "freeform"[0] == 'f' && "template"[0] == 't' && "none"[0] == 'n';
    WorkedIsSucceeded(trace, "run_query");
    WorkedIsSucceeded(trace, "run_query_template");
  }

  lemma WorkedIsSucceeded(trace: seq<Event>, name: string)
    ensures WorkedOnce(trace, name) <==> HasSucceeded(trace, name)
  {
    if WorkedOnce(trace, name) {
      var i: nat :| i < |trace| && Worked(trace[i], name);
      assert Succeeds(trace, i, name);
    }
    if HasSucceeded(trace, name) {
      var i: nat :| Succeeds(trace, i, name);
      assert Worked(trace[i], name);
    }
  }

  /** Some call of that tool came back with a record that holds no error. */
  ghost predicate WorkedOnce(trace: seq<Event>, name: string) {
    exists i: nat :: i < |trace| && Worked(trace[i], name)
  }

  predicate Worked(e: Event, name: string) {
    match e
    case Executed(call, Returned(Record("", _, _))) => call.name == name
    case _ => false
  }

  /** A call is refused for one of two reasons. */
  lemma RefusalsSayWhy(world: World, trace: seq<Event>, e: Event)
    requires Follows(world, trace, e) && e.Refused?
    ensures e.call.arguments.None? ==> e.reason == "Tool arguments must be a JSON object."
    ensures e.call.arguments.Some? ==>
      e.call.name == "run_query" && e.reason ==
      "run_query is locked: call search_data_products and list_query_templates first, and use a template if one fits."
  {
    hide Unlocked, Pending, Ended;
  }

  lemma Snoc(world: World, trace: seq<Event>, e: Event)
    ensures (trace + [e])[..|trace|] == trace && (trace + [e])[|trace|] == e
    ensures Proper(world, trace + [e]) <==> Proper(world, trace) && Follows(world, trace, e)
    ensures Transcript(world.start, trace + [e], world.dumps) ==
      Transcript(world.start, trace, world.dumps) + Said(e, world.dumps)
    ensures Pending(trace + [e]) == match e
      case Asked(Reply(_, calls)) => calls
      case Asked(Unavailable) => []
      case _ => if Pending(trace) == [] then [] else Pending(trace)[1..]
    ensures Replies(trace + [e]) == Replies(trace) + ReplyOf(e)
  {
    assert (trace + [e])[..|trace|] == trace;
  }

  lemma SnocPicks(trace: seq<Event>, e: Event)
    ensures Collect(trace + [e], TemplateRun) == Collect(trace, TemplateRun) + TemplateRun(e)
    ensures Collect(trace + [e], ProductsFound) == Collect(trace, ProductsFound) + ProductsFound(e)
    ensures Collect(trace + [e], QueryId) == Collect(trace, QueryId) + QueryId(e)
    ensures Collect(trace + [e], CallName) == Collect(trace, CallName) + CallName(e)
  {
    assert (trace + [e])[..|trace|] == trace;
  }

  lemma SnocFlags(trace: seq<Event>, e: Event)
    ensures forall name :: HasReturned(trace + [e], name) <==> HasReturned(trace, name) || Returns([e], 0, name)
    ensures forall name :: HasSucceeded(trace + [e], name) <==> HasSucceeded(trace, name) || Succeeds([e], 0, name)
  {
    var longer := trace + [e];
    assert longer[|trace|] == e;
    forall name ensures HasReturned(longer, name) <==> HasReturned(trace, name) || Returns([e], 0, name) {
      if HasReturned(trace, name) {
        var i: nat :| Returns(trace, i, name);
        assert Returns(longer, i, name);
      }
      if Returns([e], 0, name) { assert Returns(longer, |trace|, name); }
      if HasReturned(longer, name) {
        var i: nat :| Returns(longer, i, name);
        assert if i < |trace| then Returns(trace, i, name) else Returns([e], 0, name);
      }
    }
    forall name ensures HasSucceeded(longer, name) <==> HasSucceeded(trace, name) || Succeeds([e], 0, name) {
      if HasSucceeded(trace, name) {
        var i: nat :| Succeeds(trace, i, name);
        assert Succeeds(longer, i, name);
      }
      if Succeeds([e], 0, name) { assert Succeeds(longer, |trace|, name); }
      if HasSucceeded(longer, name) {
        var i: nat :| Succeeds(longer, i, name);
        assert if i < |trace| then Succeeds(trace, i, name) else Succeeds([e], 0, name);
      }
    }
  }

  // ----- The loop -----

  type TextMessage = m: Message | m.Text? witness Text("user", "")

  /** The messages the first chat gets. */
  function Opening(systemPrompt: string, history: seq<TextMessage>, question: string): seq<Message> {
    [Text("system", systemPrompt)] + history + [Text("user", question)]
  }

  /** The state that the loop updates, and the trace of what it did. */
  class Agent {
    const world: World
    var trace: seq<Event>
    var messages: seq<Message>
    var templates: seq<string>
    var products: seq<string>
    var queryIds: seq<int>
    var toolCalls: seq<string>
    var searched: bool
    var listedTemplates: bool
    var ranTemplate: bool
    var ranFreeform: bool

    /** The flags and lists say what the trace says. */
    ghost predicate Tracks()
      reads this
    {
      && templates == Distinct(Collect(trace, TemplateRun))
      && products == Collect(trace, ProductsFound)
      && queryIds == Collect(trace, QueryId)
      && toolCalls == Collect(trace, CallName)
      && searched == HasReturned(trace, "search_data_products")
      && listedTemplates == HasReturned(trace, "list_query_templates")
      && ranTemplate == HasSucceeded(trace, "run_query_template")
      && ranFreeform == HasSucceeded(trace, "run_query")
    }

    ghost predicate Valid()
      reads this
    {
      && Proper(world, trace)
      && Tracks()
      && messages == Transcript(world.start, trace, world.dumps)
    }

    constructor (world: World)
      ensures Valid() && trace == [] && this.world == world
    {
      this.world, trace, messages := world, [], world.start;
      templates, products, queryIds, toolCalls := [], [], [], [];
      searched, listedTemplates, ranTemplate, ranFreeform := false, false, false, false;
    }

    /** Updates the lists and flags after a call that returned; the answer is false when that breaks off. */
    method Record(call: ToolCall, value: Value) returns (ok: bool)
      requires call.arguments.Some?
      modifies this
      ensures trace == old(trace) && messages == old(messages) && toolCalls == old(toolCalls)
      ensures var e := Executed(call, Returned(value));
        && ok == !IsAbort(e)
        && (ok ==>
          && templates == Plus(old(templates), TemplateRun(e))
          && products == old(products) + ProductsFound(e)
          && queryIds == old(queryIds) + QueryId(e)
          && searched == (old(searched) || Returns([e], 0, "search_data_products"))
          && listedTemplates == (old(listedTemplates) || Returns([e], 0, "list_query_templates"))
          && ranTemplate == (old(ranTemplate) || Succeeds([e], 0, "run_query_template"))
          && ranFreeform == (old(ranFreeform) || Succeeds([e], 0, "run_query")))
    {
      ok := true;
      if call.name == "search_data_products" {
        searched := true;
        if value.Other? { return false; }
        if value.Record? { products := products + ProductNames(FirstFive(value.products)); }
      } else if call.name == "list_query_templates" {
        listedTemplates := true;
      } else if (call.name == "run_query_template" || call.name == "run_query") && value.Record? {
        if value.queryId.Some? { queryIds := queryIds + [value.queryId.value]; }
        if value.error == "" {
          if call.name == "run_query_template" {
            ranTemplate := true;
            var template := call.arguments.value.template;
            if template != "" && template !in templates { templates := templates + [template]; }
          } else {
            ranFreeform := true;
          }
        }
      }
    }

    /** The next chat; a reply with calls joins the messages. */
    method Ask() returns (reply: Reply)
      requires Valid() && !Ended(trace) && Pending(trace) == [] && |Replies(trace)| < world.maxSteps
      modifies this
      ensures Valid() && trace == old(trace) + [Asked(reply)]
      ensures Pending(trace) == (if reply.Reply? then reply.calls else [])
      ensures |Replies(trace)| == old(|Replies(trace)|) + 1
    {
      hide Proper, Transcript, Collect, Pending, HasReturned, HasSucceeded, Distinct, Replies, Returns, Succeeds;
      reply := world.chat(messages);
      var event := Asked(reply);
      Snoc(world, trace, event);
      ghost var before := trace;
      trace := trace + [event];
      assert Tracks() by {
        NothingPicked(event);
        SnocPicks(before, event);
        SnocFlags(before, event);
        DistinctPlus(Collect(before, TemplateRun), event);
      }
      if reply.Reply? && reply.calls != [] { messages := messages + [Calling(reply.content, reply.calls)]; }
    }

    /** Refuses the call, or executes it and updates the lists and flags; the answer is false when that breaks off. */
    method Decide(call: ToolCall) returns (ok: bool, event: Event, value: Value)
      requires Valid() && !Ended(trace) && Pending(trace) != [] && call == Pending(trace)[0]
      modifies this
      ensures trace == old(trace) && messages == old(messages)
      ensures Follows(world, trace, event) && !event.Asked? && event.call == call && ok == !IsAbort(event)
      ensures ok ==> Picked(event) && Said(event, world.dumps) == [Tool(IdOf(call), Capped(world.dumps(value)))]
    {
      hide Proper, Transcript, Collect, Pending, HasReturned, HasSucceeded, Distinct, Capped, Replies, ProductNames;
      hide TemplateRun, ProductsFound, QueryId, Returns, Succeeds;
      toolCalls := toolCalls + [call.name];
      ok := true;
      if call.arguments.None? {
        event, value := Refused(call, NOT_AN_OBJECT), Value.Record(NOT_AN_OBJECT, None, []);
        NothingPicked(event);
      } else if call.name == "run_query" && !(searched && listedTemplates) {
        event, value := Refused(call, LOCKED), Value.Record(LOCKED, None, []);
        NothingPicked(event);
      } else {
        var result := world.execute(trace, call.name, call.arguments.value);
        event := Executed(call, result);
        match result
        case Raised(message) =>
          value := Value.Record(if message == "" then "The tool failed." else message, None, []);
          NothingPicked(event);
        case Returned(returned) =>
          value := returned;
          ok := Record(call, returned);
      }
    }

    /** The lists and flags have grown by what this event adds. */
    twostate predicate Picked(e: Event)
      requires !e.Asked?
      reads this
    {
      && toolCalls == old(toolCalls) + [e.call.name]
      && templates == Plus(old(templates), TemplateRun(e))
      && products == old(products) + ProductsFound(e)
      && queryIds == old(queryIds) + QueryId(e)
      && searched == (old(searched) || Returns([e], 0, "search_data_products"))
      && listedTemplates == (old(listedTemplates) || Returns([e], 0, "list_query_templates"))
      && ranTemplate == (old(ranTemplate) || Succeeds([e], 0, "run_query_template"))
      && ranFreeform == (old(ranFreeform) || Succeeds([e], 0, "run_query"))
    }

    /** One call of the reply: decided, and answered in the messages. */
    method Handle(call: ToolCall) returns (ok: bool)
      requires Valid() && !Ended(trace) && Pending(trace) != [] && call == Pending(trace)[0]
      modifies this
      ensures Proper(world, trace)
      ensures Pending(trace) == old(Pending(trace))[1..] && Replies(trace) == old(Replies(trace))
      ensures trace != [] && ok == !IsAbort(trace[|trace| - 1])
      ensures ok ==> Valid() && !Ended(trace)
    {
      hide Proper, Transcript, Collect, Pending, HasReturned,
        HasSucceeded, Distinct, Capped, Replies, ProductNames, Follows;
      hide TemplateRun, ProductsFound, QueryId, Returns, Succeeds, Plus, IdOf, Said;
      var event, value;
      ok, event, value := Decide(call);
      Snoc(world, trace, event);
      ghost var before := trace;
      trace := trace + [event];
      assert ok ==> Tracks() by {
        SnocPicks(before, event);
        SnocFlags(before, event);
        DistinctPlus(Collect(before, TemplateRun), event);
      }
      if ok { messages := messages + [Tool(IdOf(call), Capped(world.dumps(value)))]; }
    }
  }

  /** A list and what it lacks of at most one more. */
  function Plus(s: seq<string>, more: seq<string>): seq<string> {
    if more == [] || more[0] in s then s else s + [more[0]]
  }

  lemma DistinctPlus(s: seq<string>, e: Event)
    ensures Distinct(s + TemplateRun(e)) == Plus(Distinct(s), TemplateRun(e))
  {
    if TemplateRun(e) == [] {
      assert s + [] == s;
    } else {
      assert (s + TemplateRun(e))[..|s|] == s;
    }
  }

  /** Refused and failed calls leave no trace in the lists and flags. */
  lemma NothingPicked(e: Event)
    ensures !e.Executed? || e.result.Raised? ==>
      && TemplateRun(e) == [] && ProductsFound(e) == [] && QueryId(e) == []
      && forall name :: !Returns([e], 0, name) && !Succeeds([e], 0, name)
  {}

  /** No outcome when the loop broke off. The trace is what happened, in order. */
  method RunAgent(question: string, systemPrompt: string, history: seq<TextMessage>, chat: seq<Message> -> Reply,
      execute: (seq<Event>, string, Arguments) -> ToolResult, dumps: Value -> string, maxSteps: int := AGENT_MAX_STEPS)
    returns (outcome: Option<Outcome>, messages: seq<Message>, trace: seq<Event>)
    ensures var world := World(Opening(systemPrompt, history, question), chat, execute, dumps, maxSteps);
      Proper(world, trace) && Final(world, trace) && (outcome.Some? ==>
        messages == Transcript(world.start, trace, dumps))
    ensures outcome == if trace != [] && IsAbort(trace[|trace| - 1]) then None else Some(Summary(trace))
  {
    hide Proper, Transcript, Collect, Pending, HasReturned, HasSucceeded, Distinct, Replies;
    var start := [Text("system", systemPrompt)];
    start := start + history;
    start := start + [Text("user", question)];
    var world := World(start, chat, execute, dumps, maxSteps);
    var agent := new Agent(world);
    var answer := "";
    EmptyTrace(world);
    var step := 0;
    while step < maxSteps
      invariant agent.world == world && agent.Valid() && fresh(agent)
      invariant Pending(agent.trace) == [] && !Ended(agent.trace) && |Replies(agent.trace)| == step
    {
      var reply := agent.Ask();
      if reply.Unavailable? { return None, agent.messages, agent.trace; }
      if reply.calls == [] {
        answer := Strip(reply.content);
        break;
      }
      assert reply.calls[0..] == reply.calls;
      for j := 0 to |reply.calls|
        invariant agent.world == world && agent.Valid() && fresh(agent)
        invariant Pending(agent.trace) == reply.calls[j..] && !Ended(agent.trace) && |Replies(agent.trace)| == step + 1
      {
        var ok := agent.Handle(reply.calls[j]);
        if !ok { return None, agent.messages, agent.trace; }
      }
      step := step + 1;
    }
    if answer == "" { answer := UNFINISHED; }
    var products := DistinctProducts(agent.products);
    var path := if agent.ranFreeform then "freeform" else if agent.ranTemplate then "template" else "none";
    outcome := Some(Outcome(answer, path, agent.templates, products, agent.queryIds, agent.toolCalls));
    messages, trace := agent.messages, agent.trace;
  }

  lemma EmptyTrace(world: World)
    ensures Pending([]) == [] && Replies([]) == []
  {}

  /** The order-keeping removal of duplicates. */
  method DistinctProducts(products: seq<string>) returns (distinct: seq<string>)
    ensures distinct == Distinct(products)
  {
    distinct := [];
    for i := 0 to |products|
      invariant distinct == Distinct(products[..i])
    {
      assert products[..i + 1][..i] == products[..i];
      if products[i] !in distinct { distinct := distinct + [products[i]]; }
    }
    assert products[..|products|] == products;
  }

  // ----- What holds of every trace -----

  lemma {:induction false} ProperSoFar(world: World, trace: seq<Event>, i: nat)
    requires Proper(world, trace) && i < |trace|
    ensures Proper(world, trace[..i]) && Follows(world, trace[..i], trace[i])
    decreases |trace|
  {
    var before := trace[..|trace| - 1];
    if i < |before| {
      ProperSoFar(world, before, i);
      assert before[..i] == trace[..i];
    }
  }

  /** The lock: freeform SQL is executed only after a search and a listing have come back. */
  lemma LockHolds(world: World, trace: seq<Event>, i: nat)
    requires Proper(world, trace) && i < |trace|
    requires trace[i].Executed? && trace[i].call.name == "run_query"
    ensures exists a: nat, b: nat ::
      && a < i && b < i
      && Returns(trace, a, "search_data_products") && Returns(trace, b, "list_query_templates")
  {
    ProperSoFar(world, trace, i);
    var a: nat :| Returns(trace[..i], a, "search_data_products");
    var b: nat :| Returns(trace[..i], b, "list_query_templates");
    assert Returns(trace, a, "search_data_products") && Returns(trace, b, "list_query_templates");
  }

  /** And nothing but the lock or malformed arguments keeps a call from being executed. */
  lemma OnlyTheLockRefuses(world: World, trace: seq<Event>, i: nat)
    requires Proper(world, trace) && i < |trace| && !trace[i].Asked?
    ensures trace[i].Executed? <==>
      trace[i].call.arguments.Some? && (trace[i].call.name == "run_query" ==> Unlocked(trace[..i]))
  {
    ProperSoFar(world, trace, i);
  }

  /** An answer is called freeform only when a freeform query worked,
      and then the search and the listing came back before it. */
  lemma FreeformWasUnlocked(world: World, trace: seq<Event>)
    requires Proper(world, trace) && PathOf(trace) == "freeform"
    ensures exists i: nat, a: nat, b: nat ::
      && Succeeds(trace, i, "run_query") && a < i && b < i
      && Returns(trace, a, "search_data_products") && Returns(trace, b, "list_query_templates")
  {
    assert "freeform"[0] == 'f' && "template"[0] == 't' && "none"[0] == 'n';
    var i: nat :| Succeeds(trace, i, "run_query");
    LockHolds(world, trace, i);
  }

  /** The model is asked no more often than it may be. */
  lemma {:induction false} StepsAreBounded(world: World, trace: seq<Event>)
    requires Proper(world, trace)
    ensures |Replies(trace)| <= if world.maxSteps < 0 then 0 else world.maxSteps
    decreases |trace|
  {
    if trace != [] {
      StepsAreBounded(world, trace[..|trace| - 1]);
    }
  }

  function CallsOf(e: Event): seq<ToolCall> {
    if e.Asked? && e.reply.Reply? then e.reply.calls else []
  }

  function Handled(e: Event): seq<ToolCall> {
    if e.Asked? then [] else [e.call]
  }

  /** The calls the model asked for are the calls that were handled, in that order, and those still pending. */
  lemma {:induction false} CallsAreConserved(world: World, trace: seq<Event>)
    requires Proper(world, trace)
    ensures Collect(trace, CallsOf) == Collect(trace, Handled) + Pending(trace)
    decreases |trace|
  {
    if trace != [] {
      var before, e := trace[..|trace| - 1], trace[|trace| - 1];
      CallsAreConserved(world, before);
      if !e.Asked? {
        assert Pending(before) == [e.call] + Pending(trace);
      }
    }
  }

  lemma AnswerIsPrinted(e: Event, dumps: Value -> string)
    requires !e.Asked?
    ensures |Said(e, dumps)| == 1 && AnswerTo(e.call, e, Said(e, dumps)[0], dumps)
  {
    assert |TRUNCATED| == 16;
    var value := match e
      case Refused(_, reason) => Record(reason, None, [])
      case Executed(_, Returned(value)) => value
      case Executed(_, Raised(message)) => Record(if message == "" then "The tool failed." else message, None, []);
    CappedPrints(dumps(value));
  }

  lemma CappedPrints(printed: string)
    ensures Prints(Capped(printed), printed)
  {
    var mark := "...\"(truncated)\"";
    assert |mark| == 16 && TRUNCATED == mark;
    if |printed| > 20000 {
      var first := printed[..20000];
      assert Capped(printed) == first + mark;
    }
  }

  /** The part of the transcript that the last reply with calls and the answers to it make up. */
  ghost predicate HalfAnswered(messages: seq<Message>, left: seq<ToolCall>, handled: seq<Event>, dumps: Value -> string)
  {
    exists p: nat, k: nat :: AnsweredSoFar(messages, left, p, k, handled, dumps)
  }

  ghost predicate AnsweredSoFar(messages: seq<Message>, left: seq<ToolCall>,
      p: nat, k: nat, handled: seq<Event>, dumps: Value -> string) {
    && p < |messages| && messages[p].Calling? && k <= |messages[p].calls|
    && |messages| == p + k + 1
    && ToolsIn(messages[..p]) + k == |handled|
    && Complete(messages[..p], handled, dumps)
    && Answered(messages, p, k, handled, dumps)
    && (forall j :: p < j < |messages| ==> messages[j].Tool?)
    && left == messages[p].calls[k..]
  }

  lemma {:induction false} NoToolsYet(messages: seq<Message>)
    requires forall m :: m in messages ==> m.Text?
    ensures ToolsIn(messages) == 0
  {
    if messages != [] {
      assert messages[|messages| - 1] in messages;
      NoToolsYet(messages[..|messages| - 1]);
    }
  }

  /** More events do not change what was answered. */
  lemma StaysComplete(messages: seq<Message>, handled: seq<Event>, more: seq<Event>, dumps: Value -> string)
    requires Complete(messages, handled, dumps) && handled <= more
    ensures Complete(messages, more, dumps)
  {
    hide AnswerTo;
    forall p | 0 <= p < |messages| && messages[p].Calling?
      ensures Answered(messages, p, |messages[p].calls|, more, dumps)
    {
      assert Answered(messages, p, |messages[p].calls|, handled, dumps);
      assert forall i :: 0 <= i < |handled| ==> more[i] == handled[i];
    }
  }

  /** Whenever the model is asked, and at the end, every call of the transcript has its answer in its place: what the
      event that handled it brought. */
  lemma {:induction false} TranscriptIsComplete(world: World, trace: seq<Event>)
    requires Proper(world, trace) && (trace != [] ==> !IsAbort(trace[|trace| - 1]))
    requires forall m :: m in world.start ==> m.Text?
    ensures var messages, handled := Transcript(world.start, trace, world.dumps), Collect(trace, Handling);
      && ToolsIn(messages) == |handled|
      && (Pending(trace) == [] ==> Complete(messages, handled, world.dumps))
      && (Pending(trace) != [] ==> HalfAnswered(messages, Pending(trace), handled, world.dumps))
    decreases |trace|
  {
    hide AnswerTo;
    if trace == [] {
      NoToolsYet(world.start);
      forall p | 0 <= p < |world.start| ensures !world.start[p].Calling? { assert world.start[p] in world.start; }
    } else {
      var before, e := trace[..|trace| - 1], trace[|trace| - 1];
      TranscriptIsComplete(world, before);
      var messages, handled := Transcript(world.start, before, world.dumps), Collect(before, Handling);
      if e.Asked? {
        assert Collect(trace, Handling) == handled;
        if e.reply.calls == [] {
          assert Transcript(world.start, trace, world.dumps) == messages;
        } else {
          OneMoreReply(messages, Calling(e.reply.content, e.reply.calls), handled, world.dumps);
        }
      } else {
        AnswerIsPrinted(e, world.dumps);
        OneMoreAnswer(messages, Pending(before), handled, e, Said(e, world.dumps)[0], world.dumps);
      }
    }
  }

  lemma OneMoreReply(messages: seq<Message>, m: Message, handled: seq<Event>, dumps: Value -> string)
    requires Complete(messages, handled, dumps) && m.Calling? && ToolsIn(messages) == |handled|
    ensures HalfAnswered(messages + [m], m.calls, handled, dumps) && ToolsIn(messages + [m]) == |handled|
  {
    hide AnswerTo;
    var more := messages + [m];
    assert more[..|messages|] == messages;
    assert AnsweredSoFar(more, m.calls, |messages|, 0, handled, dumps);
  }

  lemma OneMoreAnswer(messages: seq<Message>, left: seq<ToolCall>,
      handled: seq<Event>, e: Event, m: Message, dumps: Value -> string)
    requires HalfAnswered(messages, left, handled, dumps) && left != [] && AnswerTo(left[0], e, m, dumps) && m.Tool?
    requires ToolsIn(messages) == |handled|
    ensures HalfAnswered(messages + [m], left[1..], handled + [e], dumps)
    ensures left[1..] == [] ==> Complete(messages + [m], handled + [e], dumps)
    ensures ToolsIn(messages + [m]) == |handled + [e]|
  {
    hide AnswerTo;
    var p: nat, k: nat :| AnsweredSoFar(messages, left, p, k, handled, dumps);
    var more, events := messages + [m], handled + [e];
    assert more[..|messages|] == messages && more[..p] == messages[..p];
    assert messages[p].calls[k] == left[0];
    StaysComplete(messages[..p], handled, events, dumps);
    AnsweredOneMore(messages, p, k, handled, e, m, dumps);
    assert AnsweredSoFar(more, left[1..], p, k + 1, events, dumps);
    if left[1..] == [] { NowComplete(more, p, events, dumps); }
  }

  lemma AnsweredOneMore(messages: seq<Message>, p: nat, k: nat,
      handled: seq<Event>, e: Event, m: Message, dumps: Value -> string)
    requires p < |messages| && messages[p].Calling? && k < |messages[p].calls| && |messages| == p + k + 1
    requires ToolsIn(messages[..p]) + k == |handled| && Answered(messages, p, k, handled, dumps)
    requires AnswerTo(messages[p].calls[k], e, m, dumps)
    ensures Answered(messages + [m], p, k + 1, handled + [e], dumps)
  {
    hide AnswerTo;
    var more, n := messages + [m], ToolsIn(messages[..p]);
    assert more[..p] == messages[..p];
    forall j | 0 <= j < k + 1
      ensures AnswerTo(more[p].calls[j], (handled + [e])[n + j], more[p + 1 + j], dumps)
    {
      if j < k { assert (handled + [e])[n + j] == handled[n + j] && more[p + 1 + j] == messages[p + 1 + j]; }
    }
  }

  /** When the last reply is answered in full, everything is. */
  lemma NowComplete(messages: seq<Message>, p: nat, handled: seq<Event>, dumps: Value -> string)
    requires p < |messages| && messages[p].Calling? && |messages| == p + |messages[p].calls| + 1
    requires Complete(messages[..p], handled, dumps) && Answered(messages, p, |messages[p].calls|, handled, dumps)
    requires forall j :: p < j < |messages| ==> messages[j].Tool?
    ensures Complete(messages, handled, dumps)
  {
    hide AnswerTo;
    forall q | 0 <= q < |messages| && messages[q].Calling?
      ensures Answered(messages, q, |messages[q].calls|, handled, dumps)
    {
      if q < p {
        assert Answered(messages[..p], q, |messages[..p][q].calls|, handled, dumps);
        assert messages[..p][..q] == messages[..q];
      }
    }
  }

  /** Every chat starts with the system prompt, the history in order, and the question. */
  lemma {:induction false} ChatsOpenWith(systemPrompt: string, history: seq<TextMessage>, question: string,
      trace: seq<Event>, dumps: Value -> string)
    ensures var messages := Transcript(Opening(systemPrompt, history, question), trace, dumps);
      && |messages| >= |history| + 2
      && messages[0] == Text("system", systemPrompt)
      && messages[1..|history| + 1] == history
      && messages[|history| + 1] == Text("user", question)
  {
    hide Said;
    if trace != [] { ChatsOpenWith(systemPrompt, history, question, trace[..|trace| - 1], dumps); }
  }
}
