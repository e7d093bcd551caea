/** What a list of session operations or file-transfer calls says about the outside world. */
module Journal {
  import opened Prelude
  import opened SessionSpec
  import opened TransferSpec

  /** The chunks received, in order. */
  function Fed(ops: seq<Op>): seq<bytes> {
    if ops == [] then []
    else
      Fed(ops[..|ops| - 1])
      + match ops[|ops| - 1]
        case OpFeed(chunk, _) => [chunk]
        case _ => []
  }

  /** The instants the operations were given, in order. */
  function Times(ops: seq<Op>): seq<int> {
    if ops == [] then []
    else
      Times(ops[..|ops| - 1])
      + match ops[|ops| - 1]
        case OpConnect(now) => [now]
        case OpSend(_, _, _, now) => [now]
        case OpFeed(_, now) => [now]
        case OpTick(now) => [now]
        case _ => []
  }

  /** The session right after the first Synced event was read from it. */
  function FirstSynced(h: Host, ops: seq<Op>): Option<Host> {
    if ops == [] then None
    else
      var front, last := ops[..|ops| - 1], ops[|ops| - 1];
      if FirstSynced(h, front).Some? then FirstSynced(h, front)
      else if last.OpPollEvent? && Run(h, front).Some? && ReadsSynced(Run(h, front).value) then
        Some(Step(Run(h, front).value, last))
      else None
  }

  predicate ReadsSynced(h: Host) {
    h.core.events != [] && h.core.events[0].Synced?
  }

  /** What the last call answered, if it was a poll. */
  function LastAnswer(start: Transfer, calls: seq<Call>): Option<FileEvent> {
    if calls == [] || !calls[|calls| - 1].CallPoll? then None
    else
      match Calls(start, calls[..|calls| - 1])
      case None => None
      case Some(t) => Poll(t).1
  }

  lemma Snoc(ops: seq<Op>, op: Op)
    ensures Fed(ops + [op]) == Fed(ops) + match op
                                          case OpFeed(chunk, _) => [chunk]
                                          case _ => []
    ensures Times(ops + [op]) == Times(ops) + match op
                                              case OpConnect(now) => [now]
                                              case OpSend(_, _, _, now) => [now]
                                              case OpFeed(_, now) => [now]
                                              case OpTick(now) => [now]
                                              case _ => []
  {
    assert (ops + [op])[..|ops|] == ops;
  }

  lemma SyncedSnoc(h: Host, ops: seq<Op>, g: Host, op: Op)
    requires Run(h, ops) == Some(g)
    ensures FirstSynced(h, ops + [op])
         == if FirstSynced(h, ops).Some? then FirstSynced(h, ops)
            else if op.OpPollEvent? && ReadsSynced(g) then Some(Step(g, op)) else None
  {
    hide Run, Step;
    assert (ops + [op])[..|ops|] == ops;
  }

  lemma {:induction false} CallsThen(start: Transfer, calls: seq<Call>, t: Transfer, call: Call)
    requires Calls(start, calls) == Some(t) && Callable(t, call)
    ensures Calls(start, calls + [call]) == Some(Do(t, call))
    decreases |calls|
  {
    hide Do, Callable;
    if calls == [] {
      var one := [call];
      assert one[1..] == [] && calls + one == one;
    } else {
      assert (calls + [call])[1..] == calls[1..] + [call];
      CallsThen(Do(start, calls[0]), calls[1..], t, call);
    }
  }

  lemma {:induction false} CallsAll(start: Transfer, calls: seq<Call>, t: Transfer, more: seq<Call>)
    requires Calls(start, calls) == Some(t)
    ensures Calls(start, calls + more) == Calls(t, more)
    decreases |calls|
  {
    hide Do, Callable;
    if calls == [] {
      assert calls + more == more;
    } else {
      assert (calls + more)[1..] == calls[1..] + more;
      CallsAll(Do(start, calls[0]), calls[1..], t, more);
    }
  }

  /** The calls lead from a new machine over `origin` to t, and the last one answered `answer`. */
  ghost predicate CameBy(origin: Host, calls: seq<Call>, t: Transfer, answer: Option<FileEvent>) {
    && Calls(Transfer(NEW_MACHINE, origin), calls) == Some(t)
    && answer == LastAnswer(Transfer(NEW_MACHINE, origin), calls)
  }

  lemma CameThen(origin: Host, calls: seq<Call>, t: Transfer, answer: Option<FileEvent>, call: Call)
    requires CameBy(origin, calls, t, answer) && Callable(t, call)
    ensures CameBy(origin, calls + [call], Do(t, call), if call.CallPoll? then Poll(t).1 else None)
  {
    hide Calls, Do, Callable, Poll;
    CallsThen(Transfer(NEW_MACHINE, origin), calls, t, call);
    assert (calls + [call])[..|calls|] == calls;
  }

  // ----- Rounds -----

  /** A drive loop ticks the session once in every round it completes. */
  function Ticks(ops: seq<Op>): nat {
    if ops == [] then 0
    else Ticks(ops[..|ops| - 1]) + if ops[|ops| - 1].OpTick? then 1 else 0
  }

  lemma TicksSnoc(ops: seq<Op>, op: Op)
    ensures Ticks(ops + [op]) == Ticks(ops) + if op.OpTick? then 1 else 0
  {
    assert (ops + [op])[..|ops|] == ops;
  }

  lemma {:induction false} TicksOfPolls(ops: seq<Op>, n: nat)
    ensures Ticks(ops + Repeat(OpPollEvent, n)) == Ticks(ops)
    decreases n
  {
    hide Ticks;
    if n == 0 {
      assert ops + Repeat(OpPollEvent, 0) == ops;
    } else {
      TicksOfPolls(ops, n - 1);
      RepeatSnoc(OpPollEvent, n - 1);
      assert ops + Repeat(OpPollEvent, n) == (ops + Repeat(OpPollEvent, n - 1)) + [OpPollEvent];
      TicksSnoc(ops + Repeat(OpPollEvent, n - 1), OpPollEvent);
    }
  }

  /**
   * Whenever bytes were fed everything pushed had been written, and whenever time
   * passed every event had been read too.
   */
  predicate Prompt(h: Host, ops: seq<Op>) {
    ops == []
    || (var front, last := ops[..|ops| - 1], ops[|ops| - 1];
        && Prompt(h, front)
        && (last.OpFeed? || last.OpTick? ==> Run(h, front).Some? && Run(h, front).value.core.outbound == [])
        && (last.OpTick? ==> Run(h, front).value.core.events == []))
  }

  lemma PromptSnoc(h: Host, ops: seq<Op>, g: Host, op: Op)
    requires Prompt(h, ops) && Run(h, ops) == Some(g)
    requires op.OpFeed? || op.OpTick? ==> g.core.outbound == []
    requires op.OpTick? ==> g.core.events == []
    ensures Prompt(h, ops + [op])
  {
    hide Run;
    assert (ops + [op])[..|ops|] == ops;
  }

  lemma PromptPoll(h: Host, ops: seq<Op>)
    requires Prompt(h, ops)
    ensures Prompt(h, ops + [OpPollEvent])
  {
    hide Run;
    assert (ops + [OpPollEvent])[..|ops|] == ops;
  }

  predicate IsRequest(call: Call) {
    call.CallQuery? || call.CallOpen? || call.CallWrite? || call.CallClose? || call.CallAbort?
  }

  /** How often the machine was polled since its last request. */
  function PollsSinceRequest(calls: seq<Call>): nat {
    if calls == [] || IsRequest(calls[|calls| - 1]) then 0
    else PollsSinceRequest(calls[..|calls| - 1]) + if calls[|calls| - 1].CallPoll? then 1 else 0
  }

  /** How often the session was ticked since the last request. */
  function TicksSinceRequest(calls: seq<Call>): nat {
    if calls == [] || IsRequest(calls[|calls| - 1]) then 0
    else TicksSinceRequest(calls[..|calls| - 1]) + if calls[|calls| - 1].CallTick? then 1 else 0
  }

  lemma RoundsSnoc(calls: seq<Call>, call: Call)
    ensures PollsSinceRequest(calls + [call])
         == if IsRequest(call) then 0 else PollsSinceRequest(calls) + if call.CallPoll? then 1 else 0
    ensures TicksSinceRequest(calls + [call])
         == if IsRequest(call) then 0 else TicksSinceRequest(calls) + if call.CallTick? then 1 else 0
  {
    assert (calls + [call])[..|calls|] == calls;
  }

  // ----- Against what a transport and a clock have shown -----

  function Start(): Host {
    Fresh(DEFAULT_RESPONSE_TIMEOUT, DEFAULT_TOTAL_TIMEOUT)
  }

  /**
   * The operations received exactly `taken`, at exactly the instants `shown`, with
   * nothing left unwritten or unread meanwhile; `origin` is the state they synced in.
   */
  ghost predicate Accounts(ops: seq<Op>, taken: seq<bytes>, shown: seq<int>, origin: Option<Host>) {
    Fed(ops) == taken && Times(ops) == shown && FirstSynced(Start(), ops) == origin && Prompt(Start(), ops)
  }

  lemma AccountsPoll(ops: seq<Op>, g: Host, op: Op, taken: seq<bytes>, shown: seq<int>, origin: Option<Host>)
    requires Accounts(ops, taken, shown, origin) && Run(Start(), ops) == Some(g)
    requires op.OpPollOutbound? || (op.OpPollEvent? && (origin.Some? || !ReadsSynced(g)))
    ensures Accounts(ops + [op], taken, shown, origin)
  {
    hide Fed, Times, FirstSynced, Run, Start, Step, Prompt;
    Snoc(ops, op);
    SyncedSnoc(Start(), ops, g, op);
    PromptSnoc(Start(), ops, g, op);
  }

  lemma AccountsSynced(ops: seq<Op>, g: Host, taken: seq<bytes>, shown: seq<int>)
    requires Accounts(ops, taken, shown, None) && Run(Start(), ops) == Some(g) && ReadsSynced(g)
    ensures Accounts(ops + [OpPollEvent], taken, shown, Some(Step(g, OpPollEvent)))
  {
    hide Fed, Times, FirstSynced, Run, Start, Step, Prompt;
    Snoc(ops, OpPollEvent);
    SyncedSnoc(Start(), ops, g, OpPollEvent);
    PromptPoll(Start(), ops);
  }

  lemma AccountsFeed(ops: seq<Op>, g: Host, chunk: bytes, now: int, taken: seq<bytes>, shown: seq<int>,
                     origin: Option<Host>)
    requires Accounts(ops, taken, shown, origin) && Run(Start(), ops) == Some(g) && g.core.outbound == []
    ensures Accounts(ops + [OpFeed(chunk, now)], taken + [chunk], shown + [now], origin)
  {
    hide Fed, Times, FirstSynced, Run, Start, Step, Prompt;
    Snoc(ops, OpFeed(chunk, now));
    SyncedSnoc(Start(), ops, g, OpFeed(chunk, now));
    PromptSnoc(Start(), ops, g, OpFeed(chunk, now));
  }

  /** Connecting, sending and ticking look at the clock once. */
  lemma AccountsAt(ops: seq<Op>, g: Host, op: Op, now: int, taken: seq<bytes>, shown: seq<int>, origin: Option<Host>)
    requires Accounts(ops, taken, shown, origin) && Run(Start(), ops) == Some(g)
    requires match op
             case OpConnect(t) => t == now
             case OpSend(_, _, _, t) => t == now
             case OpTick(t) => t == now && g.core.outbound == [] && g.core.events == []
             case _ => false
    ensures Accounts(ops + [op], taken, shown + [now], origin)
  {
    hide Fed, Times, FirstSynced, Run, Start, Step, Prompt;
    Snoc(ops, op);
    SyncedSnoc(Start(), ops, g, op);
    PromptSnoc(Start(), ops, g, op);
  }

  /** Reading events after the handshake leaves the account as it is. */
  lemma {:induction false} AccountsPolls(ops: seq<Op>, n: nat, taken: seq<bytes>, shown: seq<int>, origin: Option<Host>)
    requires Accounts(ops, taken, shown, origin) && origin.Some?
    ensures Accounts(ops + Repeat(OpPollEvent, n), taken, shown, origin)
    decreases n
  {
    hide Fed, Times, FirstSynced, Prompt;
    if n == 0 {
      assert ops + Repeat(OpPollEvent, 0) == ops;
    } else {
      AccountsPolls(ops, n - 1, taken, shown, origin);
      RepeatSnoc(OpPollEvent, n - 1);
      assert ops + Repeat(OpPollEvent, n) == (ops + Repeat(OpPollEvent, n - 1)) + [OpPollEvent];
      Snoc(ops + Repeat(OpPollEvent, n - 1), OpPollEvent);
      SyncedStays(ops + Repeat(OpPollEvent, n - 1), OpPollEvent);
      PromptPoll(Start(), ops + Repeat(OpPollEvent, n - 1));
    }
  }

  lemma SyncedStays(ops: seq<Op>, op: Op)
    requires FirstSynced(Start(), ops).Some?
    ensures FirstSynced(Start(), ops + [op]) == FirstSynced(Start(), ops)
  {
    hide Run, Step, Start;
    assert (ops + [op])[..|ops|] == ops;
  }
}
