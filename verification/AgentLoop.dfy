/** The bounded tool-use loop: chat, run the requested tools, repeat, and stop on an answer, a cancel or the limit. */
module AgentLoop {
  import opened Wrappers

  const MAX_STEPS: nat := 12

  datatype Call = Call(id: string, name: string, arguments: string)

  datatype Reply = Reply(content: string, calls: seq<Call>)

  /** What a call is answered with: the tool's value, or one of the two error objects. */
  datatype ToolResult = Value(value: string) | InvalidArguments | ToolRaised

  datatype Message =
    | Prompt(content: string)                            // system or user
    | Assistant(content: string, calls: seq<Call>)
    | Tool(callId: string, result: ToolResult)

  datatype Event =
    | CancelledEvent
    | Final(summary: Summary)
    | ToolStart(name: string, args: string)
    | ToolEnd(name: string, result: ToolResult)

  datatype Summary = Answer(content: string) | StepLimitReached

  /** One log_step: the call's own arguments, what was recorded as its args, and the tick its tool was due. */
  datatype Entry = Entry(call: Call, args: string, result: ToolResult, at: nat)

  /** What the loop set in motion, at which tick of its clock. */
  datatype Act = Chat(at: nat, seen: seq<Message>) | Execute(at: nat)

  datatype Outcome = Finished(summary: Summary) | RunCancelled | ArgsUnbound | ChatRaised

  /**
   * Everything the loop does not decide: whether the cancel flag is set at a tick, what a chat started at a
   * tick replies (None when it raises), how argument text decodes, and what a tool started at a tick returns
   * (None when the tool raises - whatever it raises, a cancellation included).
   */
  datatype Environment = Environment(
    flag: nat -> bool,
    chat: nat -> Option<Reply>,
    parse: string -> Option<string>,
    tool: nat -> Option<string>)
  {
    predicate Cancelled(tick: nat) { flag(tick) }

    function Reply(tick: nat): Option<Reply> { chat(tick) }

    function Decode(arguments: string): Option<string> { parse(arguments) }

    function Execute(tick: nat): Option<string> { tool(tick) }
  }

  ghost predicate CancelIsFinal(env: Environment) {
    forall s: nat, t: nat :: s <= t && env.Cancelled(s) ==> env.Cancelled(t)
  }

  // ----- conversations in which every tool call is answered

  /** One tool message per call, in order, with the call's id. */
  ghost predicate Answers(replies: seq<Message>, calls: seq<Call>) {
    && |replies| == |calls|
    && forall j :: 0 <= j < |calls| ==> replies[j].Tool? && replies[j].callId == calls[j].id
  }

  /** A message together with the answers it calls for. */
  function BlockLength(m: Message): nat { if m.Assistant? then 1 + |m.calls| else 1 }

  ghost predicate AnsweredHead(ms: seq<Message>)
    requires |ms| > 0
  {
    && !ms[0].Tool?
    && BlockLength(ms[0]) <= |ms|
    && (ms[0].Assistant? ==> Answers(ms[1..BlockLength(ms[0])], ms[0].calls))
  }

  /**
   * Every assistant message with tool calls is followed at once by its answers, and no tool message stands
   * elsewhere.
   */
  ghost predicate Answered(ms: seq<Message>) {
    |ms| > 0 ==> AnsweredHead(ms) && Answered(ms[BlockLength(ms[0])..])
  }

  lemma {:induction false} AnsweredConcat(a: seq<Message>, b: seq<Message>)
    requires Answered(a) && Answered(b)
    ensures Answered(a + b)
    decreases |a|
  {
    if |a| == 0 {
      assert a + b == b;
    } else {
      var n := BlockLength(a[0]);
      HeadOfConcat(a, b);
      AnsweredConcat(a[n..], b);
      AnsweredFromHead(a + b, a[n..] + b);
    }
  }

  lemma HeadOfConcat(a: seq<Message>, b: seq<Message>)
    requires |a| > 0 && AnsweredHead(a)
    ensures var n := BlockLength(a[0]);
      AnsweredHead(a + b) && BlockLength((a + b)[0]) == n && (a + b)[n..] == a[n..] + b
  {
    var n := BlockLength(a[0]);
    assert (a + b)[0] == a[0] && (a + b)[1..n] == a[1..n];
  }

  lemma AnsweredFromHead(ms: seq<Message>, rest: seq<Message>)
    requires |ms| > 0 && AnsweredHead(ms) && rest == ms[BlockLength(ms[0])..] && Answered(rest)
    ensures Answered(ms)
  {
  }

  lemma AnsweredRound(ms: seq<Message>, content: string, calls: seq<Call>, replies: seq<Message>)
    requires Answered(ms) && Answers(replies, calls)
    ensures Answered(ms + [Assistant(content, calls)] + replies)
  {
    var round := [Assistant(content, calls)] + replies;
    RoundIsAnswered(content, calls, replies);
    AnsweredConcat(ms, round);
    assert ms + [Assistant(content, calls)] + replies == ms + round;
  }

  lemma RoundIsAnswered(content: string, calls: seq<Call>, replies: seq<Message>)
    requires Answers(replies, calls)
    ensures Answered([Assistant(content, calls)] + replies)
  {
    var round := [Assistant(content, calls)] + replies;
    assert round[1..1 + |calls|] == replies && round[1 + |calls|..] == [];
    assert AnsweredHead(round);
  }

  // ----- what a trace of actions owes the cancel flag

  /** Every action came one tick after a look at the flag that found it unset, and ticks never repeat. */
  ghost predicate Guarded(env: Environment, trace: seq<Act>, now: nat) {
    && (forall i :: 0 <= i < |trace| ==> StartedUncancelled(env, trace[i], now))
    && InOrder(trace)
  }

  ghost predicate StartedUncancelled(env: Environment, act: Act, now: nat) {
    0 < act.at < now && !env.Cancelled(act.at - 1)
  }

  ghost predicate Before(trace: seq<Act>, tick: int) { forall i :: 0 <= i < |trace| ==> trace[i].at < tick }

  ghost predicate InOrder(trace: seq<Act>) { forall i, j :: 0 <= i < j < |trace| ==> trace[i].at < trace[j].at }

  /** After the flag is set, at most one further chat or tool starts. */
  lemma AtMostOneActionAfterCancel(env: Environment, trace: seq<Act>, now: nat, t: nat, i: nat, j: nat)
    requires CancelIsFinal(env) && Guarded(env, trace, now) && env.Cancelled(t)
    requires i < |trace| && j < |trace| && trace[i].at >= t && trace[j].at >= t
    ensures i == j && trace[i].at == t
  {
    assert StartedUncancelled(env, trace[i], now) && StartedUncancelled(env, trace[j], now);
    assert trace[i].at - 1 < t && trace[j].at - 1 < t;
  }

  /** How many of the first n actions are chats. */
  ghost function ChatsAmong(trace: seq<Act>, n: nat): nat
    requires n <= |trace|
  {
    if n == 0 then 0 else ChatsAmong(trace, n - 1) + if trace[n - 1].Chat? then 1 else 0
  }

  ghost function Chats(trace: seq<Act>): nat { ChatsAmong(trace, |trace|) }

  lemma {:induction false} ChatsOfPrefix(trace: seq<Act>, act: Act, n: nat)
    requires n <= |trace|
    ensures ChatsAmong(trace + [act], n) == ChatsAmong(trace, n)
  {
    if n > 0 { ChatsOfPrefix(trace, act, n - 1); }
  }

  ghost predicate ChatsSawAnswers(trace: seq<Act>) {
    forall i :: 0 <= i < |trace| ==> SawAnswers(trace[i])
  }

  ghost predicate SawAnswers(act: Act) { act.Chat? ==> Answered(act.seen) }

  /** Starting one more action right after a look at the flag that found it unset. */
  lemma ActionExtends(env: Environment, trace: seq<Act>, now: nat, act: Act)
    requires Guarded(env, trace, now) && ChatsSawAnswers(trace) && SawAnswers(act)
    requires now > 0 && !env.Cancelled(now - 1) && act.at == now && Before(trace, now)
    ensures Guarded(env, trace + [act], now + 1) && ChatsSawAnswers(trace + [act])
    ensures Chats(trace + [act]) == Chats(trace) + if act.Chat? then 1 else 0
  {
    ChatsOfExtension(trace, act);
    SeenOfExtension(trace, act);
    OrderOfExtension(trace, act);
    forall i | 0 <= i < |trace| + 1 ensures StartedUncancelled(env, (trace + [act])[i], now + 1) {
      if i < |trace| { assert StartedUncancelled(env, trace[i], now); }
    }
  }

  lemma OrderOfExtension(trace: seq<Act>, act: Act)
    requires InOrder(trace) && Before(trace, act.at)
    ensures InOrder(trace + [act])
  {
  }

  lemma ChatsOfExtension(trace: seq<Act>, act: Act)
    ensures Chats(trace + [act]) == Chats(trace) + if act.Chat? then 1 else 0
  {
    ChatsOfPrefix(trace, act, |trace|);
  }

  lemma SeenOfExtension(trace: seq<Act>, act: Act)
    requires ChatsSawAnswers(trace) && SawAnswers(act)
    ensures ChatsSawAnswers(trace + [act])
  {
  }

  // ----- what the step log owes the calls

  /** An entry records the decoded arguments of its call, or, if they do not decode, those of the entry before; and
    * what its tool, if it was run, returned at the entry's tick. */
  ghost predicate EntryFaithful(env: Environment, log: seq<Entry>, k: nat)
    requires k < |log|
  {
    && log[k].result == ResultOf(env, log[k].call, log[k].at)
    && match env.Decode(log[k].call.arguments)
       case Some(args) => log[k].args == args
       case None => k > 0 && log[k].args == log[k - 1].args
  }

  ghost predicate LogFaithful(env: Environment, log: seq<Entry>) {
    forall k :: 0 <= k < |log| ==> EntryFaithful(env, log, k)
  }

  lemma LogExtends(env: Environment, log: seq<Entry>, e: Entry)
    requires LogFaithful(env, log)
    requires match env.Decode(e.call.arguments)
             case Some(decoded) => e.args == decoded
             case None => |log| > 0 && e.args == log[|log| - 1].args
    requires e.result == ResultOf(env, e.call, e.at)
    ensures LogFaithful(env, log + [e])
  {
    forall k | 0 <= k < |log| + 1 ensures EntryFaithful(env, log + [e], k) {
      if k < |log| { assert EntryFaithful(env, log, k); }
    }
  }

  /** What a call is answered with when its tool, if it is run at all, is started at a tick. */
  function ResultOf(env: Environment, call: Call, tick: nat): ToolResult {
    if env.Decode(call.arguments).None? then InvalidArguments
    else
      match env.Execute(tick)
      case None => ToolRaised
      case Some(value) => Value(value)
  }

  function EntryAt(env: Environment, call: Call, args: string, tick: nat): Entry {
    Entry(call, args, ResultOf(env, call, tick), tick)
  }

  /** The events of one answered call; only a call whose arguments decode is announced. */
  function CallEvents(env: Environment, call: Call, tick: nat): seq<Event> {
    var decoded := env.Decode(call.arguments);
    (if decoded.Some? then [ToolStart(call.name, decoded.value)] else [])
      + [ToolEnd(call.name, ResultOf(env, call, tick))]
  }

  lemma CallEventsInOrder(env: Environment, events: seq<Event>, call: Call, tick: nat)
    ensures var decoded, end := env.Decode(call.arguments), ToolEnd(call.name, ResultOf(env, call, tick));
            var begun := if decoded.Some? then events + [ToolStart(call.name, decoded.value)] else events;
            begun + [end] == events + CallEvents(env, call, tick)
  {
  }

  /** The calls at hand start with one whose arguments do not decode, and the flag is unset when it is looked at. */
  ghost predicate FirstCallFails(env: Environment, calls: seq<Call>, tick: nat) {
    |calls| > 0 && env.Decode(calls[0].arguments).None? && !env.Cancelled(tick)
  }

  /** A round starting at a tick gets a reply. */
  ghost predicate Replies(env: Environment, tick: nat) { !env.Cancelled(tick) && env.Reply(tick + 1).Some? }

  /** The round starting at a tick gets a reply whose first call fails to decode. */
  ghost predicate RoundFails(env: Environment, tick: nat) {
    Replies(env, tick) && FirstCallFails(env, env.Reply(tick + 1).value.calls, tick + 2)
  }

  /** Never cancelled, and the first reply calls a tool with a lone opening brace for arguments. */
  lemma LoneBraceFails()
    ensures var env := Environment(t => false, t => Some(Reply("", [Call("1", "t", "{")])), s => None, t => None);
      CancelIsFinal(env) && RoundFails(env, 0)
  {
  }

  ghost predicate Unfinished(events: seq<Event>) {
    forall i :: 0 <= i < |events| ==> events[i].ToolStart? || events[i].ToolEnd?
  }

  /** e is the last event, and the only one that ends a run. */
  ghost predicate EndsWith(events: seq<Event>, e: Event) {
    |events| > 0 && events[|events| - 1] == e && Unfinished(events[..|events| - 1])
  }

  /** The tool of every logged call that decodes was started at the entry's tick, each at its own. */
  ghost predicate LogRan(env: Environment, log: seq<Entry>, trace: seq<Act>) {
    && (forall k :: 0 <= k < |log| && env.Decode(log[k].call.arguments).Some? ==> Execute(log[k].at) in trace)
    && (forall j, k :: 0 <= j < k < |log| ==> log[j].at < log[k].at)
  }

  function AssistantMessage(reply: Reply): Message { Assistant(reply.content, reply.calls) }

  /** The last thing started was a chat, and it raised. */
  ghost predicate LastChatRaised(env: Environment, trace: seq<Act>) {
    |trace| > 0 && trace[|trace| - 1].Chat? && env.Reply(trace[|trace| - 1].at).None?
  }

  /** The last thing started was a chat, and this was its reply. */
  ghost predicate LastReply(env: Environment, trace: seq<Act>, reply: Reply) {
    |trace| > 0 && trace[|trace| - 1].Chat? && env.Reply(trace[|trace| - 1].at) == Some(reply)
  }

  /** From ms and entries on, one log entry and one tool message for each of the calls, in their order. */
  ghost predicate AnsweredSince(ms: seq<Message>, entries: seq<Entry>, messages: seq<Message>, log: seq<Entry>,
                                calls: seq<Call>)
  {
    && ms <= messages && entries <= log
    && |messages| == |ms| + |calls| && |log| == |entries| + |calls|
    && forall j :: 0 <= j < |calls| ==> AnswerTo(messages[|ms| + j], log[|entries| + j], calls[j])
  }

  /** A reply, then for each of its calls one log entry and one tool message, in their order. */
  ghost predicate RoundRecorded(reply: Reply, ms: seq<Message>, entries: seq<Entry>, messages: seq<Message>,
                                log: seq<Entry>)
  {
    AnsweredSince(ms + [AssistantMessage(reply)], entries, messages, log, reply.calls)
  }

  ghost predicate AnswerTo(m: Message, e: Entry, call: Call) { e.call == call && m == Tool(call.id, e.result) }

  lemma AnsweredOneMore(ms: seq<Message>, entries: seq<Entry>, spoken: seq<Message>, logged: seq<Entry>,
                        messages: seq<Message>, log: seq<Entry>, calls: seq<Call>, i: nat)
    requires i < |calls| && AnsweredSince(ms, entries, spoken, logged, calls[..i])
    requires |log| == |logged| + 1 && log == logged + [log[|logged|]] && log[|logged|].call == calls[i]
    requires messages == spoken + [Tool(calls[i].id, log[|logged|].result)]
    ensures AnsweredSince(ms, entries, messages, log, calls[..i + 1])
  {
    forall j | 0 <= j < |calls[..i + 1]| ensures AnswerTo(messages[|ms| + j], log[|entries| + j], calls[j]) {
      if j < i { assert AnswerTo(spoken[|ms| + j], logged[|entries| + j], calls[..i][j]); }
    }
  }

  lemma SinceAnswers(ms: seq<Message>, entries: seq<Entry>, messages: seq<Message>, log: seq<Entry>, calls: seq<Call>)
    requires AnsweredSince(ms, entries, messages, log, calls)
    ensures messages == ms + messages[|ms|..] && Answers(messages[|ms|..], calls)
  {
    forall j | 0 <= j < |calls| ensures messages[|ms|..][j].Tool? && messages[|ms|..][j].callId == calls[j].id {
      assert AnswerTo(messages[|ms| + j], log[|entries| + j], calls[j]);
    }
  }

  lemma RanStays(env: Environment, log: seq<Entry>, trace: seq<Act>, trace': seq<Act>)
    requires LogRan(env, log, trace) && trace <= trace'
    ensures LogRan(env, log, trace')
  {
    forall k | 0 <= k < |log| && env.Decode(log[k].call.arguments).Some? ensures Execute(log[k].at) in trace' {
      assert Execute(log[k].at) in trace;
    }
  }

  lemma RanOneMore(env: Environment, log: seq<Entry>, trace: seq<Act>, trace': seq<Act>, e: Entry)
    requires LogRan(env, log, trace) && (|log| > 0 ==> log[|log| - 1].at < e.at)
    requires trace' == if env.Decode(e.call.arguments).Some? then trace + [Execute(e.at)] else trace
    ensures LogRan(env, log + [e], trace') && LogRan(env, log, trace')
  {
    RanStays(env, log, trace, trace');
    forall j, k | 0 <= j < k < |log| + 1 ensures (log + [e])[j].at < (log + [e])[k].at {
      if k == |log| && j < k - 1 { assert log[j].at < log[k - 1].at; }
    }
  }

  // ----- the transcript of a run

  /** The parts of the first n elements, joined. */
  function GatherFirst<T, U>(s: seq<T>, n: nat, part: T -> seq<U>): seq<U>
    requires n <= |s|
  {
    if n == 0 then [] else GatherFirst(s, n - 1, part) + part(s[n - 1])
  }

  function Gather<T, U>(s: seq<T>, part: T -> seq<U>): seq<U> { GatherFirst(s, |s|, part) }

  lemma {:induction false} GatherPrefix<T, U>(s: seq<T>, x: T, n: nat, part: T -> seq<U>)
    requires n <= |s|
    ensures GatherFirst(s + [x], n, part) == GatherFirst(s, n, part)
  {
    if n > 0 { GatherPrefix(s, x, n - 1, part); }
  }

  lemma GatherOneMore<T, U>(s: seq<T>, x: T, part: T -> seq<U>)
    ensures Gather(s + [x], part) == Gather(s, part) + part(x)
  {
    GatherPrefix(s, x, |s|, part);
  }

  function AskedCalls(m: Message): seq<Call> { if m.Assistant? then m.calls else [] }

  function ToolAnswer(m: Message): seq<Message> { if m.Tool? then [m] else [] }

  function LoggedCall(e: Entry): seq<Call> { [e.call] }

  function LoggedAnswer(e: Entry): seq<Message> { [Tool(e.call.id, e.result)] }

  function Spoken(m: Message): seq<Message> { if m.Tool? then [] else [m] }

  /** Of the messages that came after ms: the tool messages are the logged results under the logged calls' ids; the
    * others are the given replies; and the calls these ask for are those logged, all in order. */
  ghost predicate Transcript(ms: seq<Message>, messages: seq<Message>, log: seq<Entry>, replies: seq<Message>) {
    && ms <= messages
    && Gather(messages[|ms|..], Spoken) == replies
    && Gather(messages[|ms|..], AskedCalls) == Gather(log, LoggedCall)
    && Gather(messages[|ms|..], ToolAnswer) == Gather(log, LoggedAnswer)
  }

  function EntryEvents(env: Environment): Entry -> seq<Event> { (e: Entry) => CallEvents(env, e.call, e.at) }

  /** The events are those of the logged calls, in order. */
  ghost predicate Narrated(env: Environment, events: seq<Event>, log: seq<Entry>) {
    events == Gather(log, EntryEvents(env))
  }

  lemma NarratedOneMore(env: Environment, events: seq<Event>, log: seq<Entry>, e: Entry, events': seq<Event>)
    requires Narrated(env, events, log) && events' == events + CallEvents(env, e.call, e.at)
    ensures Narrated(env, events', log + [e])
  {
    GatherOneMore(log, e, EntryEvents(env));
  }

  lemma EmptyTranscript(ms: seq<Message>)
    ensures Transcript(ms, ms, [], [])
  {
    assert ms[|ms|..] == [];
  }

  lemma {:induction false} GatherConcat<T, U>(a: seq<T>, b: seq<T>, part: T -> seq<U>)
    ensures Gather(a + b, part) == Gather(a, part) + Gather(b, part)
    decreases |b|
  {
    if |b| == 0 {
      assert a + b == a;
    } else {
      var n := |b| - 1;
      assert b == b[..n] + [b[n]] && a + b == a + b[..n] + [b[n]];
      GatherOneMore(b[..n], b[n], part);
      GatherConcat(a, b[..n], part);
      GatherOneMore(a + b[..n], b[n], part);
    }
  }

  /** Tool messages and log entries that answer the calls, one for one. */
  ghost predicate AnswerAll(tools: seq<Message>, added: seq<Entry>, calls: seq<Call>) {
    |tools| == |calls| == |added| && forall j :: 0 <= j < |calls| ==> AnswerTo(tools[j], added[j], calls[j])
  }

  lemma {:induction false} AnswersGathered(tools: seq<Message>, added: seq<Entry>, calls: seq<Call>)
    requires AnswerAll(tools, added, calls)
    ensures Gather(tools, AskedCalls) == [] && Gather(tools, Spoken) == [] && Gather(added, LoggedCall) == calls
    ensures Gather(tools, ToolAnswer) == Gather(added, LoggedAnswer)
    decreases |calls|
  {
    if |calls| > 0 {
      var n := |calls| - 1;
      assert AnswerTo(tools[n], added[n], calls[n]);
      AnswersGathered(tools[..n], added[..n], calls[..n]);
      assert tools == tools[..n] + [tools[n]] && added == added[..n] + [added[n]] && calls == calls[..n] + [calls[n]];
      GatherOneMore(tools[..n], tools[n], AskedCalls);
      GatherOneMore(tools[..n], tools[n], Spoken);
      GatherOneMore(tools[..n], tools[n], ToolAnswer);
      GatherOneMore(added[..n], added[n], LoggedCall);
      GatherOneMore(added[..n], added[n], LoggedAnswer);
    }
  }

  lemma SplitSince(ms: seq<Message>, base: seq<Message>, entries: seq<Entry>, messages: seq<Message>, log: seq<Entry>,
                   calls: seq<Call>)
    requires ms <= base && AnsweredSince(base, entries, messages, log, calls)
    ensures ms <= messages && messages[|ms|..] == base[|ms|..] + messages[|base|..]
    ensures log == entries + log[|entries|..] && AnswerAll(messages[|base|..], log[|entries|..], calls)
  {
    forall j | 0 <= j < |calls| ensures AnswerTo(messages[|base|..][j], log[|entries|..][j], calls[j]) {
      assert AnswerTo(messages[|base| + j], log[|entries| + j], calls[j]);
    }
  }

  lemma RoundGathered(said: seq<Message>, logged: seq<Entry>, m: Message, tools: seq<Message>, added: seq<Entry>)
    requires m.Assistant? && AnswerAll(tools, added, m.calls)
    requires Gather(said, AskedCalls) == Gather(logged, LoggedCall)
    requires Gather(said, ToolAnswer) == Gather(logged, LoggedAnswer)
    ensures Gather(said + [m] + tools, Spoken) == Gather(said, Spoken) + [m]
    ensures Gather(said + [m] + tools, AskedCalls) == Gather(logged + added, LoggedCall)
    ensures Gather(said + [m] + tools, ToolAnswer) == Gather(logged + added, LoggedAnswer)
  {
    AnswersGathered(tools, added, m.calls);
    GatherRound(said, m, tools, Spoken);
    GatherRound(said, m, tools, AskedCalls);
    GatherRound(said, m, tools, ToolAnswer);
    GatherConcat(logged, added, LoggedCall);
    GatherConcat(logged, added, LoggedAnswer);
  }

  lemma GatherRound<U>(said: seq<Message>, m: Message, tools: seq<Message>, part: Message -> seq<U>)
    ensures Gather(said + [m] + tools, part) == Gather(said, part) + part(m) + Gather(tools, part)
  {
    GatherConcat(said + [m], tools, part);
    GatherOneMore(said, m, part);
  }

  lemma TranscriptExtends(ms: seq<Message>, spoken: seq<Message>, logged: seq<Entry>, reply: Reply,
                          messages: seq<Message>, log: seq<Entry>, replies: seq<Message>)
    requires Transcript(ms, spoken, logged, replies) && RoundRecorded(reply, spoken, logged, messages, log)
    ensures Transcript(ms, messages, log, replies + [AssistantMessage(reply)])
  {
    var m := AssistantMessage(reply);
    SplitSince(ms, spoken + [m], logged, messages, log, reply.calls);
    assert (spoken + [m])[|ms|..] == spoken[|ms|..] + [m];
    RoundGathered(spoken[|ms|..], logged, m, messages[|spoken| + 1..], log[|logged|..]);
  }

  class AgentRun {
    var messages: seq<Message>
    var events: seq<Event>
    var log: seq<Entry>
    var warnings: nat
    var clock: nat
    ghost var trace: seq<Act>
    ghost var heard: seq<Message>  // the replies that the chats got, in order, as assistant messages

    constructor (prompts: seq<Message>)
      requires Answered(prompts)
      ensures messages == prompts && events == [] && log == [] && warnings == 0 && clock == 0 && trace == []
      ensures heard == []
    {
      messages, events, log, warnings, clock, trace, heard := prompts, [], [], 0, 0, [], [];
    }

    /** What holds of trace and log at all times. */
    ghost predicate Consistent(env: Environment)
      reads this
    {
      && Guarded(env, trace, clock) && ChatsSawAnswers(trace) && LogFaithful(env, log) && LogRan(env, log, trace)
      && (|log| > 0 ==> log[|log| - 1].at <= clock)
    }

    /** What holds between any two steps of the loop. */
    ghost predicate Valid(env: Environment)
      reads this
    {
      Consistent(env) && Unfinished(events) && !LastChatRaised(env, trace)
    }

    /** Looks at the cancel flag; emits and reports a cancellation. */
    method CheckCancelled(env: Environment) returns (stop: bool)
      modifies `clock, `events
      ensures clock == old(clock) + 1 && stop == env.Cancelled(old(clock))
      ensures events == if stop then old(events) + [CancelledEvent] else old(events)
    {
      stop := env.Cancelled(clock);
      clock := clock + 1;
      if stop { events := events + [CancelledEvent]; }
    }

    /** args is the variable the code shares across calls and rounds: None until some call has decoded. */
    ghost predicate ArgsCurrent(args: Option<string>)
      reads this
    {
      (args.None? <==> |log| == 0) && (args.Some? ==> log[|log| - 1].args == args.value)
    }

    /** Decodes a call's arguments and, if they decode, runs its tool. */
    method AttemptCall(env: Environment, call: Call, bound: Option<string>)
      returns (args: Option<string>, result: ToolResult)
      requires Guarded(env, trace, clock) && ChatsSawAnswers(trace) && Unfinished(events)
      requires clock > 0 && !env.Cancelled(clock - 1) && Before(trace, clock)
      requires LogRan(env, log, trace) && (|log| > 0 ==> log[|log| - 1].at < clock) && !LastChatRaised(env, trace)
      modifies `clock, `trace, `events
      ensures Guarded(env, trace, clock) && ChatsSawAnswers(trace) && Unfinished(events)
      ensures Chats(trace) == old(Chats(trace))
      ensures clock >= old(clock) && LogRan(env, log, trace)
      ensures args.Some? ==> LogRan(env, log + [EntryAt(env, call, args.value, old(clock))], trace)
      ensures !LastChatRaised(env, trace)
      ensures args == if env.Decode(call.arguments).Some? then env.Decode(call.arguments) else bound
      ensures result == ResultOf(env, call, old(clock))
      ensures events + [ToolEnd(call.name, result)] == old(events) + CallEvents(env, call, old(clock))
    {
      ghost var due, traced := clock, trace;
      args, result := bound, InvalidArguments;
      var decoded := env.Decode(call.arguments);
      CallEventsInOrder(env, events, call, clock);
      if decoded.Some? {
        args := decoded;
        events := events + [ToolStart(call.name, decoded.value)];
        result := RunTool(env);
        RanOneMore(env, log, traced, trace, EntryAt(env, call, decoded.value, due));
      } else if bound.Some? {
        RanOneMore(env, log, trace, trace, EntryAt(env, call, bound.value, due));
      }
    }

    /** How an exit shows in the events: only a cancellation ends them, and only on a flag just found set. */
    ghost predicate Stopped(env: Environment, exit: Option<Outcome>)
      reads this
    {
      if exit == Some(RunCancelled) then EndsWith(events, CancelledEvent) && clock > 0 && env.Cancelled(clock - 1)
      else Unfinished(events)
    }

    /** Runs one call of a reply, from the look at the cancel flag to the answer. */
    method ProcessCall(env: Environment, call: Call, bound: Option<string>)
      returns (args: Option<string>, exit: Option<Outcome>)
      requires Valid(env) && ArgsCurrent(bound)
      modifies this
      ensures Consistent(env) && !LastChatRaised(env, trace) && Stopped(env, exit)
      ensures Chats(trace) == old(Chats(trace)) && warnings == old(warnings) && heard == old(heard)
      ensures exit == Some(RunCancelled) <==> env.Cancelled(old(clock))
      ensures exit == Some(ArgsUnbound) <==>
        !env.Cancelled(old(clock)) && bound.None? && env.Decode(call.arguments).None?
      ensures exit.None? || exit == Some(RunCancelled) || exit == Some(ArgsUnbound)
      ensures exit.Some? ==> log == old(log) && messages == old(messages)
      ensures exit.None? ==>
        var tick := old(clock) + 1;
        && ArgsCurrent(args) && args.Some?
        && messages == old(messages) + [Tool(call.id, ResultOf(env, call, tick))]
        && log == old(log) + [EntryAt(env, call, args.value, tick)]
        && events == old(events) + CallEvents(env, call, tick)
    {
      args, exit := bound, None;
      var stop := CheckCancelled(env);
      if stop { return args, Some(RunCancelled); }
      args, exit := AnswerCall(env, call, bound);
    }

    /** Answers one call, right after the flag was found unset. */
    method AnswerCall(env: Environment, call: Call, bound: Option<string>)
      returns (args: Option<string>, exit: Option<Outcome>)
      requires Valid(env) && ArgsCurrent(bound)
      requires clock > 0 && !env.Cancelled(clock - 1) && Before(trace, clock)
      requires |log| > 0 ==> log[|log| - 1].at < clock
      modifies `clock, `trace, `events, `log, `messages
      ensures Valid(env) && Chats(trace) == old(Chats(trace))
      ensures exit == if bound.None? && env.Decode(call.arguments).None? then Some(ArgsUnbound) else None
      ensures exit.Some? ==> log == old(log) && messages == old(messages)
      ensures exit.None? ==>
        && ArgsCurrent(args) && args.Some?
        && log == old(log) + [EntryAt(env, call, args.value, old(clock))]
        && messages == old(messages) + [Tool(call.id, ResultOf(env, call, old(clock)))]
        && events == old(events) + CallEvents(env, call, old(clock))
    {
      args, exit := bound, None;
      var due := clock;
      var result;
      args, result := AttemptCall(env, call, bound);
      if args.None? { return args, Some(ArgsUnbound); }
      RecordResult(env, call, args.value, result, due);
    }

    /** log_step, the tool_end event and the tool message of one call. */
    method RecordResult(env: Environment, call: Call, args: string, result: ToolResult, at: nat)
      requires Consistent(env) && Unfinished(events) && at <= clock
      requires LogRan(env, log + [EntryAt(env, call, args, at)], trace)
      requires match env.Decode(call.arguments)
               case Some(decoded) => args == decoded
               case None => |log| > 0 && args == log[|log| - 1].args
      requires result == ResultOf(env, call, at)
      modifies `log, `events, `messages
      ensures log == old(log) + [EntryAt(env, call, args, at)] && Consistent(env)
      ensures events == old(events) + [ToolEnd(call.name, result)] && Unfinished(events)
      ensures messages == old(messages) + [Tool(call.id, ResultOf(env, call, at))]
    {
      LogExtends(env, log, EntryAt(env, call, args, at));
      log := log + [Entry(call, args, result, at)];
      events := events + [ToolEnd(call.name, result)];
      messages := messages + [Tool(call.id, result)];
    }

    /**
     * Runs the calls of one reply in order, stopping at a cancellation or at unbound args.  On a normal end
     * each call has one log entry and one tool message, both in the order of the calls.
     */
    method ProcessCalls(env: Environment, calls: seq<Call>, bound: Option<string>)
      returns (args: Option<string>, exit: Option<Outcome>)
      requires Valid(env) && ArgsCurrent(bound) && Narrated(env, events, log)
      modifies this
      ensures Consistent(env) && !LastChatRaised(env, trace) && Stopped(env, exit)
      ensures Chats(trace) == old(Chats(trace)) && warnings == old(warnings) && heard == old(heard)
      ensures exit.None? ==>
        && ArgsCurrent(args) && (|calls| > 0 ==> args.Some?)
        && AnsweredSince(old(messages), old(log), messages, log, calls) && Narrated(env, events, log)
      ensures exit.None? || exit == Some(RunCancelled) || exit == Some(ArgsUnbound)
      ensures exit == Some(ArgsUnbound) <==> bound.None? && FirstCallFails(env, calls, old(clock))
      ensures exit == Some(ArgsUnbound) ==> log == [] && messages == old(messages)
    {
      args, exit := bound, None;
      for i := 0 to |calls|
        invariant Valid(env) && ArgsCurrent(args) && exit.None? && Narrated(env, events, log)
        invariant Chats(trace) == old(Chats(trace)) && warnings == old(warnings) && heard == old(heard)
        invariant AnsweredSince(old(messages), old(log), messages, log, calls[..i])
        invariant i == 0 ==> clock == old(clock) && args == bound && messages == old(messages)
        invariant i > 0 ==>
                    args.Some? && !(bound.None? && env.Decode(calls[0].arguments).None? && !env.Cancelled(old(clock)))
      {
        ghost var spoken, logged, told := messages, log, events;
        args, exit := ProcessCall(env, calls[i], args);
        if exit.Some? { return; }
        NarratedOneMore(env, told, logged, log[|logged|], events);
        AnsweredOneMore(old(messages), old(log), spoken, logged, messages, log, calls, i);
      }
      assert calls[..|calls|] == calls;
    }

    /** Executes one tool; whatever it raises becomes its result. */
    method RunTool(env: Environment) returns (result: ToolResult)
      requires Guarded(env, trace, clock) && ChatsSawAnswers(trace) && clock > 0 && !env.Cancelled(clock - 1)
      requires Before(trace, clock)
      modifies `clock, `trace
      ensures clock == old(clock) + 1 && trace == old(trace) + [Execute(old(clock))]
      ensures result == match env.Execute(old(clock)) { case None => ToolRaised case Some(value) => Value(value) }
      ensures Guarded(env, trace, clock) && ChatsSawAnswers(trace) && Chats(trace) == old(Chats(trace))
    {
      var value := env.Execute(clock);
      result := if value.Some? then Value(value.value) else ToolRaised;
      ActionExtends(env, trace, clock, Execute(clock));
      trace := trace + [Execute(clock)];
      clock := clock + 1;
    }

    /** One llm.chat on the conversation so far. */
    method Ask(env: Environment) returns (reply: Option<Reply>)
      requires Valid(env) && Answered(messages)
      requires clock > 0 && !env.Cancelled(clock - 1) && Before(trace, clock)
      modifies `clock, `trace, `heard
      ensures clock == old(clock) + 1 && reply == env.Reply(old(clock))
      ensures heard == old(heard) + if reply.Some? then [AssistantMessage(reply.value)] else []
      ensures trace == old(trace) + [Chat(old(clock), messages)]
      ensures Consistent(env) && if reply.Some? then LastReply(env, trace, reply.value) else LastChatRaised(env, trace)
      ensures Chats(trace) == old(Chats(trace)) + 1
    {
      reply := env.Reply(clock);
      ActionExtends(env, trace, clock, Chat(clock, messages));
      RanStays(env, log, trace, trace + [Chat(clock, messages)]);
      trace := trace + [Chat(clock, messages)];
      heard := heard + if reply.Some? then [AssistantMessage(reply.value)] else [];
      clock := clock + 1;
    }

    /** The events of the logged calls, then the final one. */
    ghost predicate Told(env: Environment, summary: Summary)
      reads this
    {
      |events| > 0 && Narrated(env, events[..|events| - 1], log) && events[|events| - 1] == Final(summary)
    }

    /** What holds when the loop has ended one way or another, each way told apart from the others. */
    ghost predicate Ended(env: Environment, outcome: Outcome)
      reads this
    {
      && Consistent(env) && (outcome.ChatRaised? <==> LastChatRaised(env, trace))
      && match outcome
         case Finished(summary) =>
           EndsWith(events, Final(summary)) && Told(env, summary) && Answered(messages)
           && (summary.Answer? ==> LastReply(env, trace, Reply(summary.content, [])))
         case RunCancelled => EndsWith(events, CancelledEvent) && clock > 0 && env.Cancelled(clock - 1)
         case ArgsUnbound => Unfinished(events) && log == []
         case ChatRaised => Unfinished(events)
    }

    /** A reply without tool calls ends the loop. */
    method Conclude(env: Environment, content: string)
      requires Valid(env) && LastReply(env, trace, Reply(content, [])) && Answered(messages)
      requires Narrated(env, events, log)
      modifies `messages, `events
      ensures Ended(env, Finished(Answer(content)))
      ensures messages == old(messages) + [Assistant(content, [])]
    {
      ghost var before := messages;
      messages := messages + [Assistant(content, [])];
      AnsweredRound(before, content, [], []);
      assert messages == before + [Assistant(content, [])] + [];
      events := events + [Final(Answer(content))];
    }

    /** A reply with tool calls: append it, then run and answer its calls. */
    method ActOn(env: Environment, reply: Reply, bound: Option<string>)
      returns (args: Option<string>, exit: Option<Outcome>)
      requires Valid(env) && ArgsCurrent(bound) && Answered(messages)
      requires Narrated(env, events, log)
      modifies this
      ensures exit.None? ==> Narrated(env, events, log)
      ensures Chats(trace) == old(Chats(trace)) && warnings == old(warnings) && heard == old(heard)
      ensures exit.None? ==> Valid(env) && ArgsCurrent(args) && Answered(messages)
      ensures exit.None? ==> RoundRecorded(reply, old(messages), old(log), messages, log)
      ensures exit.None? && |reply.calls| > 0 ==> args.Some?
      ensures exit.Some? ==> Ended(env, exit.value) && !exit.value.Finished? && !exit.value.ChatRaised?
      ensures exit == Some(ArgsUnbound) <==> bound.None? && FirstCallFails(env, reply.calls, old(clock))
    {
      ghost var before := messages;
      messages := messages + [Assistant(reply.content, reply.calls)];
      ghost var asked := messages;
      args, exit := ProcessCalls(env, reply.calls, bound);
      if exit.None? {
        SinceAnswers(asked, old(log), messages, log, reply.calls);
        AnsweredRound(before, reply.content, reply.calls, messages[|asked|..]);
      }
    }

    /** A reply either concludes the run or asks for tools. */
    method React(env: Environment, reply: Reply, bound: Option<string>)
      returns (args: Option<string>, exit: Option<Outcome>)
      requires Valid(env) && LastReply(env, trace, reply) && ArgsCurrent(bound) && Answered(messages)
      requires Narrated(env, events, log)
      modifies this
      ensures exit.None? ==> Narrated(env, events, log)
      ensures Chats(trace) == old(Chats(trace)) && warnings == old(warnings) && heard == old(heard)
      ensures exit.None? ==> Valid(env) && ArgsCurrent(args) && Answered(messages) && args.Some?
      ensures exit.None? || exit.value.Finished? ==> RoundRecorded(reply, old(messages), old(log), messages, log)
      ensures exit.Some? ==> Ended(env, exit.value) && !exit.value.ChatRaised?
      ensures exit.Some? && exit.value.Finished? <==> reply.calls == []
      ensures exit == Some(ArgsUnbound) <==> bound.None? && FirstCallFails(env, reply.calls, old(clock))
      ensures reply.calls == [] ==> exit == Some(Finished(Answer(reply.content)))
    {
      args, exit := bound, None;
      if |reply.calls| == 0 {
        Conclude(env, reply.content);
        return args, Some(Finished(Answer(reply.content)));
      }
      args, exit := ActOn(env, reply, bound);
    }

    /** One iteration: look at the flag, chat, then conclude or act. */
    method Round(env: Environment, bound: Option<string>, ghost prompts: seq<Message>)
      returns (args: Option<string>, exit: Option<Outcome>)
      requires Valid(env) && ArgsCurrent(bound) && Answered(messages)
      requires Transcript(prompts, messages, log, heard)
      requires Narrated(env, events, log)
      modifies this
      ensures exit.None? ==> Narrated(env, events, log)
      ensures warnings == old(warnings)
      ensures Chats(trace) <= old(Chats(trace)) + 1
      ensures exit.None? ==>
        && Valid(env) && ArgsCurrent(args) && Answered(messages) && args.Some?
        && Chats(trace) == old(Chats(trace)) + 1
      ensures exit.None? || exit.value.Finished? ==>
        Replies(env, old(clock)) && Transcript(prompts, messages, log, heard)
      ensures exit.Some? ==> Ended(env, exit.value) && exit.value != Finished(StepLimitReached)
      ensures exit.Some? && exit.value.Finished? <==>
        Replies(env, old(clock)) && env.Reply(old(clock) + 1).value.calls == []
      ensures exit.Some? && exit.value.Finished? ==>
        exit == Some(Finished(Answer(env.Reply(old(clock) + 1).value.content)))
      ensures exit == Some(ChatRaised) <==> !env.Cancelled(old(clock)) && env.Reply(old(clock) + 1).None?
      ensures exit == Some(ArgsUnbound) <==> bound.None? && RoundFails(env, old(clock))
    {
      args, exit := bound, None;
      var stop := CheckCancelled(env);
      if stop { return args, Some(RunCancelled); }
      args, exit := Converse(env, bound, prompts);
    }

    /** A chat, right after the flag was found unset, and what its reply asks for. */
    method Converse(env: Environment, bound: Option<string>, ghost prompts: seq<Message>)
      returns (args: Option<string>, exit: Option<Outcome>)
      requires Valid(env) && ArgsCurrent(bound) && Answered(messages)
      requires clock > 0 && !env.Cancelled(clock - 1) && Before(trace, clock)
      requires Narrated(env, events, log)
      requires Transcript(prompts, messages, log, heard)
      modifies this
      ensures exit.None? ==> Narrated(env, events, log)
      ensures Chats(trace) == old(Chats(trace)) + 1 && warnings == old(warnings)
      ensures exit.None? ==> Valid(env) && ArgsCurrent(args) && Answered(messages) && args.Some?
      ensures exit.Some? ==> Ended(env, exit.value) && exit.value != Finished(StepLimitReached)
      ensures exit == Some(ChatRaised) <==> env.Reply(old(clock)).None?
      ensures exit.None? || exit.value.Finished? ==>
        && env.Reply(old(clock)).Some?
        && RoundRecorded(env.Reply(old(clock)).value, old(messages), old(log), messages, log)
        && Transcript(prompts, messages, log, heard)
      ensures exit.Some? && exit.value.Finished? <==>
        env.Reply(old(clock)).Some? && env.Reply(old(clock)).value.calls == []
      ensures exit.Some? && exit.value.Finished? ==>
        exit == Some(Finished(Answer(env.Reply(old(clock)).value.content)))
      ensures exit == Some(ArgsUnbound) <==>
        && bound.None? && env.Reply(old(clock)).Some?
        && FirstCallFails(env, env.Reply(old(clock)).value.calls, old(clock) + 1)
    {
      args, exit := bound, None;
      var reply := Ask(env);
      if reply.None? { return args, Some(ChatRaised); }
      args, exit := React(env, reply.value, bound);
      if exit.None? || exit.value.Finished? {
        TranscriptExtends(prompts, old(messages), old(log), reply.value, messages, log, old(heard));
      }
    }

    /**
     * The whole loop.  Every chat sees a conversation whose tool calls are all answered; there are at most
     * MAX_STEPS chats; every action is guarded by the cancel flag; and the log is faithful up to reuse of
     * earlier args.  Each outcome is told apart from the others: a normal return has emitted exactly one
     * final event, as its last, and carries the reply of the last chat or reports the step limit; a cancelled
     * run ends on its cancelled event, at a look that found the flag set; a chat raised exactly when the last
     * thing started is a chat without reply; and args are unbound exactly when the first call of the first
     * reply does not decode and no cancel comes first.  On a normal return every call asked for has been
     * logged and answered with the logged result, in order.
     */
    method Run(env: Environment) returns (outcome: Outcome)
      requires trace == [] && log == [] && events == [] && heard == [] && Answered(messages)
      modifies this
      ensures Ended(env, outcome)
      ensures outcome == RunCancelled <==> |events| > 0 && events[|events| - 1] == CancelledEvent
      ensures outcome.Finished? ==> Transcript(old(messages), messages, log, heard)
      ensures Chats(trace) <= MAX_STEPS
      ensures outcome == ArgsUnbound <==> RoundFails(env, old(clock))
      ensures outcome == Finished(StepLimitReached) ==> Chats(trace) == MAX_STEPS && warnings == old(warnings) + 1
      ensures outcome != Finished(StepLimitReached) ==> warnings == old(warnings)
    {
      var args: Option<string>, exit: Option<Outcome> := None, None;
      EmptyTranscript(messages);
      for step := 0 to MAX_STEPS
        invariant Valid(env) && ArgsCurrent(args) && Answered(messages)
        invariant Transcript(old(messages), messages, log, heard) && Narrated(env, events, log)
        invariant Chats(trace) == step && warnings == old(warnings)
        invariant if step == 0 then clock == old(clock) && args.None? else args.Some? && !RoundFails(env, old(clock))
      {
        args, exit := Round(env, args, old(messages));
        if exit.Some? { return exit.value; }
      }
      ReportStepLimit(env);
      outcome := Finished(StepLimitReached);
    }

    method ReportStepLimit(env: Environment)
      requires Valid(env) && Answered(messages) && Narrated(env, events, log)
      modifies `warnings, `events
      ensures Ended(env, Finished(StepLimitReached)) && warnings == old(warnings) + 1
    {
      warnings := warnings + 1;
      events := events + [Final(StepLimitReached)];
    }
  }
}
