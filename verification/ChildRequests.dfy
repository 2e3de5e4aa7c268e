/** Requests the router makes of one child: internal/backend/child.go as an interleaved protocol.

    Any number of goroutines are inside Request, one reader takes lines from the child, and one waiter
    runs when the process exits. Request n waits on channel n, a buffer with room for one message. */
module ChildRequests {
  import opened Protocol
  import opened Text

  const UINT64_RANGE := 0x1_0000_0000_0000_0000

  datatype Message = Response(key: string) | Exited

  datatype Outcome = Received(message: Message) | SendFailed | Cancelled | ChildClosed

  datatype Stage =
    | Created                      // id and channel made, not yet in `pending`
    | Registered                   // in `pending`, about to send
    | Waiting                      // in the select
    | Removing(outcome: Outcome)   // about to call removePending
    | Returned(outcome: Outcome)

  /** A call of Request, its channel's buffer, and the messages ever put there. */
  datatype Call = Call(stage: Stage, buffer: seq<Message>, puts: seq<Message>)

  datatype Reader = Idle | Holding(channel: nat, message: Message)

  datatype Waiter = Running | Exited | Draining | Finished

  datatype State = State(closed: bool, pending: map<string, nat>, calls: seq<Call>, reader: Reader, waiter: Waiter)

  datatype Action =
    | Begin                        // sequence.Add, make the channel
    | Register(n: nat)
    | Send(n: nat, ok: bool)
    | Take(n: nat)                 // receive from the channel
    | Cancel(n: nat)               // ctx.Done()
    | SeeClosed(n: nat)            // <-c.closed
    | Remove(n: nat)               // removePending, then return
    | ReadLine(key: string)        // a response line whose id is pending: look up and delete
    | ReaderPut                    // responses <- message
    | Exit                         // command.Wait returned, close(c.closed)
    | Lock                         // waitLoop takes pendingMu
    | DrainOne(key: string)        // waitLoop: send and delete one entry
    | Unlock

  /** The n-th call's key; its sequence number is n + 1. */
  function CallKey(n: nat): string {
    RequestIDKey(StringID("__codex_mux_" + Decimal((n + 1) % UINT64_RANGE)))
  }

  /** The escaped prefix, the digits, a quote. */
  lemma CallKeyShape(n: nat)
    requires n + 1 < UINT64_RANGE
    ensures CallKey(n) == ("\"" + Escaped("__codex_mux_")) + (Decimal(n + 1) + "\"")
  {
    hide Escaped, RequestIDKey;
    StringIDKey("__codex_mux_" + Decimal(n + 1));
    EscapedConcat("__codex_mux_", Decimal(n + 1));
    EscapedDigits(Decimal(n + 1));
  }

  lemma SameMiddle(head: string, a: string, b: string, tail: string)
    requires head + (a + tail) == head + (b + tail)
    ensures a == b
  {
    var s := head + (a + tail);
    assert |a| == |b| && s[|head|..|head| + |a|] == a && s[|head|..|head| + |b|] == b;
  }

  lemma CallKeyInjective(m: nat, n: nat)
    requires m + 1 < UINT64_RANGE && n + 1 < UINT64_RANGE && CallKey(m) == CallKey(n)
    ensures m == n
  {
    hide Escaped, CallKey, Decimal;
    CallKeyShape(m);
    CallKeyShape(n);
    SameMiddle("\"" + Escaped("__codex_mux_"), Decimal(m + 1), Decimal(n + 1), "\"");
    DecimalInjective(m + 1, n + 1);
  }

  // ---- Steps ----

  function StageOf(s: State, n: nat): Stage {
    if n < |s.calls| then s.calls[n].stage else Returned(SendFailed)
  }

  /** pendingMu is free: only the waiter holds it over more than one step. */
  predicate Unlocked(s: State) {
    !s.waiter.Draining?
  }

  /** A send on a channel with room for one message can go ahead. */
  predicate HasRoom(s: State, channel: nat) {
    channel < |s.calls| && |s.calls[channel].buffer| < 1
  }

  predicate Enabled(s: State, a: Action) {
    match a
    case Begin => |s.calls| + 1 < UINT64_RANGE
    case Register(n) => StageOf(s, n).Created? && n < |s.calls| && Unlocked(s)
    case Send(n, ok) => StageOf(s, n).Registered? && (ok ==> !s.closed)
    case Take(n) => StageOf(s, n).Waiting? && s.calls[n].buffer != []
    case Cancel(n) => StageOf(s, n).Waiting?
    case SeeClosed(n) => StageOf(s, n).Waiting? && s.closed
    case Remove(n) => StageOf(s, n).Removing? && Unlocked(s)
    case ReadLine(key) => s.reader.Idle? && Unlocked(s) && key in s.pending
    case ReaderPut => s.reader.Holding? && HasRoom(s, s.reader.channel)
    case Exit => s.waiter.Running?
    case Lock => s.waiter.Exited?
    case DrainOne(key) => s.waiter.Draining? && key in s.pending && HasRoom(s, s.pending[key])
    case Unlock => s.waiter.Draining? && s.pending == map[]
  }

  function SetStage(s: State, n: nat, stage: Stage): State
    requires n < |s.calls|
  {
    s.(calls := s.calls[n := s.calls[n].(stage := stage)])
  }

  function Put(s: State, channel: nat, message: Message): State
    requires HasRoom(s, channel)
  {
    var c := s.calls[channel];
    s.(calls := s.calls[channel := Call(c.stage, c.buffer + [message], c.puts + [message])])
  }

  function Next(s: State, a: Action): State
    requires Enabled(s, a)
  {
    match a
    case Begin => s.(calls := s.calls + [Call(Created, [], [])])
    case Register(n) => SetStage(s.(pending := s.pending[CallKey(n) := n]), n, Registered)
    case Send(n, ok) => SetStage(s, n, if ok then Waiting else Removing(SendFailed))
    case Take(n) =>
      var c := s.calls[n];
      s.(calls := s.calls[n := Call(Returned(Received(c.buffer[0])), c.buffer[1..], c.puts)])
    case Cancel(n) => SetStage(s, n, Removing(Cancelled))
    case SeeClosed(n) => SetStage(s, n, Removing(ChildClosed))
    case Remove(n) => SetStage(s.(pending := s.pending - {CallKey(n)}), n, Returned(s.calls[n].stage.outcome))
    case ReadLine(key) => s.(pending := s.pending - {key}, reader := Holding(s.pending[key], Response(key)))
    case ReaderPut => Put(s.(reader := Idle), s.reader.channel, s.reader.message)
    case Exit => s.(closed := true, waiter := Waiter.Exited)
    case Lock => s.(waiter := Draining)
    case DrainOne(key) => Put(s, s.pending[key], Message.Exited).(pending := s.pending - {key})
    case Unlock => s.(waiter := Finished)
  }

  ghost predicate Initial(s: State) {
    s == State(false, map[], [], Idle, Running)
  }

  ghost predicate Legal(s: State, actions: seq<Action>)
    decreases |actions|
  {
    actions == [] || (Enabled(s, actions[0]) && Legal(Next(s, actions[0]), actions[1..]))
  }

  ghost function After(s: State, actions: seq<Action>): State
    requires Legal(s, actions)
    decreases |actions|
  {
    if actions == [] then s else After(Next(s, actions[0]), actions[1..])
  }

  // ---- The invariant ----

  predicate InFlight(stage: Stage) {
    stage.Registered? || stage.Waiting? || stage.Removing?
  }

  /** Message `m` is a legitimate answer to call `n`. */
  predicate AnswersCall(m: Message, n: nat) {
    m.Response? ==> m.key == CallKey(n)
  }

  /** What the call took from its channel. */
  function Taken(stage: Stage): seq<Message> {
    if stage.Returned? && stage.outcome.Received? then [stage.outcome.message] else []
  }

  /** No message is lost: the call's key is pending, or its response is on the way, or a message was put. */
  ghost predicate Expected(s: State, n: nat)
    requires n < |s.calls|
  {
    || (CallKey(n) in s.pending && s.pending[CallKey(n)] == n)
    || s.reader == Holding(n, Response(CallKey(n)))
    || s.calls[n].puts != []
  }

  /** Calls end for a cause: the child has exited when they say so. */
  ghost predicate CauseOk(s: State, c: Call) {
    && (c.stage.Removing? && c.stage.outcome.ChildClosed? ==> s.closed)
    && (c.stage.Returned? && c.stage.outcome.ChildClosed? ==> s.closed)
    && (Message.Exited in c.puts ==> s.closed)
  }

  ghost predicate CallOk(s: State, n: nat)
    requires n < |s.calls|
  {
    var c := s.calls[n];
    && |c.puts| <= 1 && c.puts == Taken(c.stage) + c.buffer
    && (InFlight(c.stage) ==> Expected(s, n))
    && (c.stage.Created? ==> c.puts == [] && CallKey(n) !in s.pending && s.reader != Holding(n, Response(CallKey(n))))
    && (c.stage.Returned? ==> CallKey(n) !in s.pending)
    && (c.buffer != [] ==> AnswersCall(c.buffer[0], n))
    && (c.stage.Returned? && c.stage.outcome.Received? ==> AnswersCall(c.stage.outcome.message, n))
    && (c.stage.Removing? ==> !c.stage.outcome.Received?)
    && CauseOk(s, c)
  }

  /** A pending entry is the only promise of a message to its channel, and its call is in flight. */
  ghost predicate PendingOk(s: State, key: string)
    requires key in s.pending
  {
    var n := s.pending[key];
    && n < |s.calls| && key == CallKey(n)
    && InFlight(s.calls[n].stage) && s.calls[n].puts == []
    && (s.reader.Holding? ==> s.reader.channel != n)
  }

  ghost predicate Inv(s: State) {
    && |s.calls| < UINT64_RANGE
    && (forall n :: 0 <= n < |s.calls| ==> CallOk(s, n))
    && (forall key :: key in s.pending ==> PendingOk(s, key))
    && (s.reader.Holding? ==>
          && s.reader.channel < |s.calls| && s.calls[s.reader.channel].puts == []
          && s.reader.message == Response(CallKey(s.reader.channel))
          && !s.calls[s.reader.channel].stage.Created?)
    && (s.closed <==> !s.waiter.Running?)
  }

  lemma PendingKeysDiffer(s: State, m: nat, n: nat)
    requires |s.calls| < UINT64_RANGE && m < |s.calls| && n < |s.calls| && m != n
    ensures CallKey(m) != CallKey(n)
  {
    hide CallKey;
    if CallKey(m) == CallKey(n) {
      CallKeyInjective(m, n);
    }
  }

  /** A call that the step leaves alone. */
  lemma CallLeftAlone(s: State, t: State, n: nat)
    requires n < |s.calls| && n < |t.calls| && CallOk(s, n) && t.calls[n] == s.calls[n]
    requires s.closed ==> t.closed
    requires s.reader == Holding(n, Response(CallKey(n))) <==> t.reader == Holding(n, Response(CallKey(n)))
    requires CallKey(n) in t.pending <==> CallKey(n) in s.pending
    requires CallKey(n) in s.pending ==> t.pending[CallKey(n)] == s.pending[CallKey(n)]
    ensures CallOk(t, n)
  {
    hide CallKey, InFlight, AnswersCall, Taken;
  }

  lemma OwnCallKept(s: State, a: Action)
    requires Inv(s) && Enabled(s, a)
    requires a.Register? || a.Send? || a.Take? || a.Cancel? || a.SeeClosed? || a.Remove?
    ensures a.n < |Next(s, a).calls| && CallOk(Next(s, a), a.n)
  {
    hide CallKey, CallOk, InFlight;
    assert CallOk(s, a.n);
    if CallKey(a.n) in s.pending {
      assert PendingOk(s, CallKey(a.n));
      OwnPending(s, a.n);
    }
    hide Inv;
    OwnCallMoves(s, a);
  }

  lemma OwnCallMoves(s: State, a: Action)
    requires Enabled(s, a) && (a.Register? || a.Send? || a.Take? || a.Cancel? || a.SeeClosed? || a.Remove?)
    requires CallOk(s, a.n)
    requires CallKey(a.n) in s.pending ==> s.pending[CallKey(a.n)] == a.n && s.calls[a.n].puts == []
    ensures a.n < |Next(s, a).calls| && CallOk(Next(s, a), a.n)
  {
    hide CallKey, CallOk;
    if a.Take? {
      TakeMoves(s, a.n);
    } else if a.Register? || a.Remove? {
      TableMoves(s, a);
    } else {
      WaitMoves(s, a);
    }
  }

  lemma TakeMoves(s: State, n: nat)
    requires Enabled(s, Take(n)) && CallOk(s, n)
    requires CallKey(n) in s.pending ==> s.calls[n].puts == []
    ensures CallOk(Next(s, Take(n)), n)
  {
    hide CallKey;
    OnlyMessage(s.calls[n].buffer);
  }

  lemma OnlyMessage(buffer: seq<Message>)
    ensures [] + buffer == buffer
    ensures |buffer| == 1 ==> buffer[1..] == [] && buffer == [buffer[0]] + []
  {
  }

  lemma TableMoves(s: State, a: Action)
    requires Enabled(s, a) && (a.Register? || a.Remove?) && CallOk(s, a.n)
    ensures CallOk(Next(s, a), a.n)
  {
    hide CallKey;
    assert Taken(Next(s, a).calls[a.n].stage) == Taken(s.calls[a.n].stage);
  }

  lemma WaitMoves(s: State, a: Action)
    requires Enabled(s, a) && (a.Send? || a.Cancel? || a.SeeClosed?) && CallOk(s, a.n)
    ensures CallOk(Next(s, a), a.n)
  {
    hide CallKey;
    assert Taken(Next(s, a).calls[a.n].stage) == Taken(s.calls[a.n].stage);
  }

  lemma OwnPending(s: State, n: nat)
    requires |s.calls| < UINT64_RANGE && n < |s.calls| && CallKey(n) in s.pending && PendingOk(s, CallKey(n))
    ensures s.pending[CallKey(n)] == n
  {
    hide CallKey;
    if s.pending[CallKey(n)] != n {
      PendingKeysDiffer(s, n, s.pending[CallKey(n)]);
    }
  }

  lemma NewCallKept(s: State)
    requires Inv(s) && Enabled(s, Begin)
    ensures CallOk(Next(s, Begin), |s.calls|)
  {
    hide CallKey, CallOk;
    var n, t := |s.calls|, Next(s, Begin);
    if CallKey(n) in s.pending {
      assert PendingOk(s, CallKey(n));
      PendingKeysDiffer(t, s.pending[CallKey(n)], n);
    }
    NewCallOk(t, n);
  }

  lemma NewCallOk(t: State, n: nat)
    requires n < |t.calls| && t.calls[n] == Call(Created, [], []) && CallKey(n) !in t.pending
    requires t.reader != Holding(n, Response(CallKey(n)))
    ensures CallOk(t, n)
  {
    hide CallKey;
  }

  /** Steps of the calls themselves. */
  lemma CallKeptByCalls(s: State, a: Action, n: nat)
    requires Inv(s) && Enabled(s, a) && n < |Next(s, a).calls|
    requires a.Begin? || a.Register? || a.Send? || a.Take? || a.Cancel? || a.SeeClosed? || a.Remove?
    ensures CallOk(Next(s, a), n)
  {
    hide CallKey, CallOk, PendingOk;
    if a.Begin? && n == |s.calls| {
      NewCallKept(s);
    } else if !a.Begin? && n == a.n {
      OwnCallKept(s, a);
    } else {
      if !a.Begin? {
        PendingKeysDiffer(s, n, a.n);
      }
      CallLeftAlone(s, Next(s, a), n);
    }
  }

  lemma ReadLineKept(s: State, key: string, n: nat)
    requires Inv(s) && Enabled(s, ReadLine(key)) && n < |s.calls|
    ensures CallOk(Next(s, ReadLine(key)), n)
  {
    hide CallKey, CallOk, InFlight;
    assert PendingOk(s, key);
    if n != s.pending[key] {
      PendingKeysDiffer(s, n, s.pending[key]);
      CallLeftAlone(s, Next(s, ReadLine(key)), n);
    } else {
      AwaitedCallKept(s, key);
    }
  }

  lemma AwaitedCallKept(s: State, key: string)
    requires Enabled(s, ReadLine(key)) && PendingOk(s, key) && CallOk(s, s.pending[key])
    ensures CallOk(Next(s, ReadLine(key)), s.pending[key])
  {
    hide CallKey;
  }

  lemma PutKept(s: State, a: Action, n: nat)
    requires Inv(s) && Enabled(s, a) && n < |s.calls| && (a.ReaderPut? || a.DrainOne?)
    ensures CallOk(Next(s, a), n)
  {
    hide CallKey;
    assert CallOk(s, n);
    if a.DrainOne? {
      assert PendingOk(s, a.key);
      if n != s.pending[a.key] {
        PendingKeysDiffer(s, n, s.pending[a.key]);
      }
    }
  }

  /** Steps of the reader and the waiter. */
  lemma CallKeptByChild(s: State, a: Action, n: nat)
    requires Inv(s) && Enabled(s, a) && n < |Next(s, a).calls|
    requires a.ReadLine? || a.ReaderPut? || a.Exit? || a.Lock? || a.DrainOne? || a.Unlock?
    ensures CallOk(Next(s, a), n)
  {
    hide CallKey, CallOk, PendingOk;
    if a.ReadLine? {
      ReadLineKept(s, a.key, n);
    } else if a.ReaderPut? || a.DrainOne? {
      PutKept(s, a, n);
    } else {
      CallLeftAlone(s, Next(s, a), n);
    }
  }

  lemma CallKept(s: State, a: Action, n: nat)
    requires Inv(s) && Enabled(s, a) && n < |Next(s, a).calls|
    ensures CallOk(Next(s, a), n)
  {
    hide Inv, Enabled, Next, CallOk;
    if a.ReadLine? || a.ReaderPut? || a.Exit? || a.Lock? || a.DrainOne? || a.Unlock? {
      CallKeptByChild(s, a, n);
    } else {
      CallKeptByCalls(s, a, n);
    }
  }

  lemma PendingKept(s: State, a: Action, key: string)
    requires Inv(s) && Enabled(s, a) && key in Next(s, a).pending
    ensures PendingOk(Next(s, a), key)
  {
    hide CallKey;
    if a.Register? {
      assert CallOk(s, a.n);
      if key in s.pending && key != CallKey(a.n) {
        assert PendingOk(s, key);
      }
    } else {
      assert PendingOk(s, key);
      assert CallOk(s, s.pending[key]);
      if a.ReadLine? || a.DrainOne? {
        assert PendingOk(s, a.key);
      }
    }
  }

  lemma ReaderKept(s: State, a: Action)
    requires Inv(s) && Enabled(s, a)
    ensures var s' := Next(s, a);
      s'.reader.Holding? ==>
        && s'.reader.channel < |s'.calls| && s'.calls[s'.reader.channel].puts == []
        && s'.reader.message == Response(CallKey(s'.reader.channel))
        && !s'.calls[s'.reader.channel].stage.Created?
  {
    hide CallKey;
    if a.ReadLine? || a.DrainOne? {
      assert PendingOk(s, a.key);
    }
  }

  lemma NextKeepsInv(s: State, a: Action)
    requires Inv(s) && Enabled(s, a)
    ensures Inv(Next(s, a))
  {
    hide CallKey, CallOk, PendingOk;
    var s' := Next(s, a);
    forall n | 0 <= n < |s'.calls| ensures CallOk(s', n) {
      CallKept(s, a, n);
    }
    forall key | key in s'.pending ensures PendingOk(s', key) {
      PendingKept(s, a, key);
    }
    ReaderKept(s, a);
  }

  lemma {:induction false} RunKeepsInv(s: State, actions: seq<Action>)
    requires Inv(s) && Legal(s, actions)
    ensures Inv(After(s, actions))
    decreases |actions|
  {
    hide Inv, Next, Enabled;
    if actions != [] {
      NextKeepsInv(s, actions[0]);
      RunKeepsInv(Next(s, actions[0]), actions[1..]);
    }
  }

  // ---- Main results ----

  /** In every interleaving each channel is sent to at most once, so neither the reader nor the waiter
      ever blocks on a channel with room for one message, the waiter not even while holding the lock. */
  lemma SendsNeverBlock(s: State, actions: seq<Action>)
    requires Initial(s) && Legal(s, actions)
    ensures var t := After(s, actions);
      && (forall n :: 0 <= n < |t.calls| ==> |t.calls[n].puts| <= 1)
      && (t.reader.Holding? ==> Enabled(t, ReaderPut))
      && (t.waiter.Draining? ==> forall key :: key in t.pending ==> Enabled(t, DrainOne(key)))
  {
    hide CallKey, Legal, After;
    RunKeepsInv(s, actions);
    var t := After(s, actions);
    if t.reader.Holding? {
      assert CallOk(t, t.reader.channel);
    }
    forall key | key in t.pending ensures HasRoom(t, t.pending[key]) {
      assert PendingOk(t, key) && CallOk(t, t.pending[key]);
    }
    forall n | 0 <= n < |t.calls| ensures |t.calls[n].puts| <= 1 {
      assert CallOk(t, n);
    }
  }

  /** Every pending key belongs to a call still in flight, and a call only ever returns its own response. */
  lemma CallsKeepTheirOwn(s: State, actions: seq<Action>)
    requires Initial(s) && Legal(s, actions)
    ensures var t := After(s, actions);
      && (forall key :: key in t.pending ==>
            t.pending[key] < |t.calls| && key == CallKey(t.pending[key]) && InFlight(t.calls[t.pending[key]].stage))
      && (forall n :: 0 <= n < |t.calls| && t.calls[n].stage.Returned? ==>
            CallKey(n) !in t.pending &&
            (t.calls[n].stage.outcome.Received? ==> AnswersCall(t.calls[n].stage.outcome.message, n)))
  {
    hide CallKey, Legal, After;
    RunKeepsInv(s, actions);
    var t := After(s, actions);
    forall key | key in t.pending
      ensures t.pending[key] < |t.calls| && key == CallKey(t.pending[key]) && InFlight(t.calls[t.pending[key]].stage)
    {
      assert PendingOk(t, key);
    }
    forall n | 0 <= n < |t.calls| && t.calls[n].stage.Returned?
      ensures CallKey(n) !in t.pending
      ensures t.calls[n].stage.outcome.Received? ==> AnswersCall(t.calls[n].stage.outcome.message, n)
    {
      assert CallOk(t, n);
    }
  }

  /** In every interleaving, every message put on a call's channel is still in its buffer or is exactly what the call
      returned; the message for a call in flight is never lost; and a call that reports a closed child is right. */
  lemma MessagesReachCalls(s: State, actions: seq<Action>)
    requires Initial(s) && Legal(s, actions)
    ensures var t := After(s, actions);
      forall n :: 0 <= n < |t.calls| ==>
        && |t.calls[n].puts| <= 1
        && (t.calls[n].puts == t.calls[n].buffer ||
            (t.calls[n].buffer == [] && t.calls[n].stage.Returned? && t.calls[n].stage.outcome.Received?
             && t.calls[n].puts == [t.calls[n].stage.outcome.message]))
        && (InFlight(t.calls[n].stage) ==>
              || (CallKey(n) in t.pending && t.pending[CallKey(n)] == n)
              || t.reader == Holding(n, Response(CallKey(n))) || t.calls[n].puts != [])
        && (t.calls[n].stage.Returned? && t.calls[n].stage.outcome.ChildClosed? ==> t.closed)
  {
    hide CallKey, Legal, After, InFlight;
    RunKeepsInv(s, actions);
    var t := After(s, actions);
    forall n | 0 <= n < |t.calls| ensures CallOk(t, n) && (t.calls[n].puts == t.calls[n].buffer ||
      (t.calls[n].buffer == [] && t.calls[n].stage.Returned? && t.calls[n].stage.outcome.Received?
       && t.calls[n].puts == [t.calls[n].stage.outcome.message]))
    {
      assert CallOk(t, n);
      assert [] + t.calls[n].buffer == t.calls[n].buffer;
    }
  }

  /** A call comes to an end only through a message, a failed send, its context or the closed child, and returns what it
      came to its end by. */
  lemma CallsEndForCause(s: State, a: Action, n: nat)
    requires Enabled(s, a) && n < |s.calls|
    ensures n < |Next(s, a).calls|
    ensures var c, c' := s.calls[n], Next(s, a).calls[n];
      && (c'.stage.Removing? && !c.stage.Removing? ==>
            match c'.stage.outcome
            case SendFailed => a == Send(n, false)
            case Cancelled => a == Cancel(n)
            case ChildClosed => a == SeeClosed(n) && s.closed
            case Received(_) => false)
      && (c'.stage.Returned? && !c.stage.Returned? ==>
            || (a == Take(n) && c.buffer != [] && c'.stage.outcome == Received(c.buffer[0]))
            || (a == Remove(n) && c.stage == Removing(c'.stage.outcome)))
  {
    hide CallKey;
  }

  /** A step of call `n` itself, or of the waiter. */
  predicate FreesCall(a: Action, n: nat) {
    match a
    case Register(m) => m == n
    case Send(m, _) => m == n
    case SeeClosed(m) => m == n
    case Remove(m) => m == n
    case DrainOne(_) => true
    case Unlock => true
    case _ => false
  }

  /** Once the child is closed, no call is stuck: it has a step of its own, or it waits for the lock and
      the waiter, which holds it, has one. */
  lemma NoCallStuck(s: State, n: nat) returns (a: Action)
    requires Inv(s) && s.closed && n < |s.calls| && !s.calls[n].stage.Returned?
    ensures FreesCall(a, n) && Enabled(s, a)
  {
    hide CallKey;
    var stage := s.calls[n].stage;
    if s.waiter.Draining? && (stage.Created? || stage.Removing?) {
      if s.pending == map[] {
        a := Unlock;
      } else {
        var key :| key in s.pending;
        assert PendingOk(s, key) && CallOk(s, s.pending[key]);
        a := DrainOne(key);
      }
    } else {
      a := match stage
        case Created => Register(n)
        case Registered => Send(n, false)
        case Waiting => SeeClosed(n)
        case Removing(_) => Remove(n);
    }
  }

  function StageWeight(stage: Stage): nat {
    match stage
    case Created => 7
    case Registered => 4
    case Waiting => 3
    case Removing(_) => 2
    case Returned(_) => 0
  }

  function CallsWeight(calls: seq<Call>): nat {
    if calls == [] then 0 else CallsWeight(calls[..|calls| - 1]) + StageWeight(calls[|calls| - 1].stage)
  }

  /** How many more steps there can be until new calls are made. */
  function Weight(s: State): nat {
    CallsWeight(s.calls) + 2 * |s.pending| + (if s.reader.Holding? then 1 else 0) +
    (match s.waiter case Running => 3 case Exited => 2 case Draining => 1 case Finished => 0)
  }

  lemma {:induction false} CallsWeightUpdate(calls: seq<Call>, n: nat, c: Call)
    requires n < |calls|
    ensures CallsWeight(calls[n := c]) + StageWeight(calls[n].stage) == CallsWeight(calls) + StageWeight(c.stage)
  {
    hide StageWeight;
    var init := calls[..|calls| - 1];
    if n < |calls| - 1 {
      CallsWeightUpdate(init, n, c);
      assert calls[n := c][..|calls| - 1] == init[n := c];
    } else {
      assert calls[n := c][..|calls| - 1] == init;
    }
  }

  lemma PendingSizes(m: map<string, nat>, key: string, n: nat)
    ensures |m[key := n]| <= |m| + 1
    ensures key in m ==> |m - {key}| == |m| - 1
    ensures key !in m ==> m - {key} == m
  {
    assert m[key := n].Keys == m.Keys + {key};
    if key in m {
      assert (m - {key}).Keys == m.Keys - {key};
    }
  }

  /** Replacing one call changes the weight by what its stage weighs. */
  lemma CallWeight(s: State, n: nat, c: Call, pending: map<string, nat>)
    requires n < |s.calls|
    ensures Weight(s.(calls := s.calls[n := c], pending := pending)) + StageWeight(s.calls[n].stage) + 2 * |s.pending|
            == Weight(s) + StageWeight(c.stage) + 2 * |pending|
  {
    hide CallsWeight, StageWeight;
    CallsWeightUpdate(s.calls, n, c);
  }

  lemma PendingCallStepLowersWeight(s: State, a: Action)
    requires Enabled(s, a) && (a.Register? || a.Remove?)
    ensures Weight(Next(s, a)) < Weight(s)
  {
    hide CallKey, Weight, Unlocked;
    var s' := Next(s, a);
    assert a.n < |s'.calls| && s' == s.(calls := s.calls[a.n := s'.calls[a.n]], pending := s'.pending);
    CallWeight(s, a.n, s'.calls[a.n], s'.pending);
    PendingSizes(s.pending, CallKey(a.n), a.n);
  }

  lemma CallStepLowersWeight(s: State, a: Action)
    requires Enabled(s, a) && (a.Send? || a.Take? || a.Cancel? || a.SeeClosed?)
    ensures Weight(Next(s, a)) < Weight(s)
  {
    hide CallKey, Weight, Unlocked;
    var s' := Next(s, a);
    assert a.n < |s'.calls| && s' == s.(calls := s.calls[a.n := s'.calls[a.n]], pending := s.pending);
    CallWeight(s, a.n, s'.calls[a.n], s.pending);
  }

  lemma PutKeepsWeight(s: State, channel: nat, message: Message)
    requires HasRoom(s, channel)
    ensures Weight(Put(s, channel, message)) == Weight(s)
    ensures Put(s, channel, message).pending == s.pending
  {
    hide CallsWeight, StageWeight;
    CallsWeightUpdate(s.calls, channel, Put(s, channel, message).calls[channel]);
  }

  lemma ReadLineLowersWeight(s: State, a: Action)
    requires Enabled(s, a) && a.ReadLine?
    ensures Weight(Next(s, a)) < Weight(s)
  {
    hide CallsWeight, Unlocked;
    PendingSizes(s.pending, a.key, 0);
  }

  lemma ReaderPutLowersWeight(s: State, a: Action)
    requires Enabled(s, a) && a.ReaderPut?
    ensures Weight(Next(s, a)) < Weight(s)
  {
    hide CallsWeight, Put;
    PutKeepsWeight(s.(reader := Idle), s.reader.channel, s.reader.message);
  }

  lemma WaiterStepLowersWeight(s: State, a: Action)
    requires Enabled(s, a) && (a.Exit? || a.Lock? || a.DrainOne? || a.Unlock?)
    ensures Weight(Next(s, a)) < Weight(s)
  {
    hide CallKey, CallsWeight, Unlocked, Put;
    if a.DrainOne? {
      DrainLowersWeight(s, a.key);
    }
  }

  lemma DrainLowersWeight(s: State, key: string)
    requires key in s.pending && HasRoom(s, s.pending[key])
    ensures Weight(Put(s, s.pending[key], Message.Exited).(pending := s.pending - {key})) < Weight(s)
  {
    hide CallsWeight, Put;
    PendingSizes(s.pending, key, 0);
    PutKeepsWeight(s, s.pending[key], Message.Exited);
  }

  lemma StepLowersWeight(s: State, a: Action)
    requires Enabled(s, a) && !a.Begin?
    ensures Weight(Next(s, a)) < Weight(s)
  {
    hide Enabled, Next, Weight;
    if a.Register? || a.Remove? {
      PendingCallStepLowersWeight(s, a);
    } else if a.Send? || a.Take? || a.Cancel? || a.SeeClosed? {
      CallStepLowersWeight(s, a);
    } else if a.ReadLine? {
      ReadLineLowersWeight(s, a);
    } else if a.ReaderPut? {
      ReaderPutLowersWeight(s, a);
    } else {
      WaiterStepLowersWeight(s, a);
    }
  }

  /** Without new calls every run is finite. */
  lemma {:induction false} RunsTerminate(s: State, actions: seq<Action>)
    requires Legal(s, actions) && forall i :: 0 <= i < |actions| ==> !actions[i].Begin?
    ensures |actions| <= Weight(s)
    decreases |actions|
  {
    hide Next, Enabled, Weight;
    if actions != [] {
      StepLowersWeight(s, actions[0]);
      RunsTerminate(Next(s, actions[0]), actions[1..]);
    }
  }

  /** So a closed child that has come to rest has returned from every call. */
  lemma RestMeansReturned(s: State)
    requires Inv(s) && s.closed
    requires forall a: Action :: !a.Begin? ==> !Enabled(s, a)
    ensures forall n :: 0 <= n < |s.calls| ==> s.calls[n].stage.Returned?
  {
    hide Inv, Enabled;
    forall n | 0 <= n < |s.calls| ensures s.calls[n].stage.Returned? {
      if !s.calls[n].stage.Returned? {
        var a := NoCallStuck(s, n);
      }
    }
  }

  // ---- The source's form ----

  class Child {
    var closed: bool
    var pending: map<string, nat>
    var calls: seq<Call>
    ghost var reader: Reader
    ghost var waiter: Waiter

    ghost function View(): State
      reads this
    {
      State(closed, pending, calls, reader, waiter)
    }

    constructor ()
      ensures Initial(View())
    {
      closed, pending, calls, reader, waiter := false, map[], [], Idle, Running;
    }

    /** Request's insertion into `pending`. */
    method RegisterCall(n: nat)
      requires Inv(View()) && Enabled(View(), Register(n))
      modifies this`pending, this`calls
      ensures View() == Next(old(View()), Register(n)) && Inv(View())
      ensures CallKey(n) !in old(pending)
    {
      hide CallKey;
      assert CallOk(View(), n);
      NextKeepsInv(View(), Register(n));
      pending := pending[CallKey(n) := n];
      calls := calls[n := calls[n].(stage := Registered)];
    }

    /** removePending and the return behind it. */
    method RemovePending(n: nat)
      requires Inv(View()) && Enabled(View(), Remove(n))
      modifies this`pending, this`calls
      ensures View() == Next(old(View()), Remove(n)) && Inv(View())
    {
      hide CallKey;
      NextKeepsInv(View(), Remove(n));
      pending := pending - {CallKey(n)};
      calls := calls[n := calls[n].(stage := Returned(calls[n].stage.outcome))];
    }

    /** The locked part of readLoop for one response line. */
    method TakePending(key: string) returns (found: bool, channel: nat)
      requires Inv(View()) && reader.Idle? && Unlocked(View())
      modifies this`pending, this`reader
      ensures found == (key in old(pending))
      ensures !found ==> View() == old(View())
      ensures found ==> View() == Next(old(View()), ReadLine(key)) && channel == old(pending)[key] && HasRoom(View(), channel)
      ensures Inv(View())
    {
      hide CallKey;
      found, channel := key in pending, 0;
      if found {
        assert PendingOk(View(), key) && CallOk(View(), pending[key]);
        NextKeepsInv(View(), ReadLine(key));
        channel := pending[key];
        pending := pending - {key};
        reader := Holding(channel, Response(key));
      }
    }

    /** One turn of that loop: send the exit message, delete the entry. */
    method DrainEntry(key: string)
      requires Inv(View()) && waiter.Draining? && key in pending
      modifies this`pending, this`calls
      ensures Enabled(old(View()), DrainOne(key)) && View() == Next(old(View()), DrainOne(key))
    {
      hide CallKey, Inv;
      DrainEnabled(View(), key);
      var channel := pending[key];
      var c := calls[channel];
      calls := calls[channel := Call(c.stage, c.buffer + [Message.Exited], c.puts + [Message.Exited])];
      pending := pending - {key};
    }

    /** The locked loop of waitLoop: every channel still pending gets exactly the exit message, and no send finds it full. */
    method DrainPending()
      requires Inv(View()) && waiter.Draining?
      modifies this`pending, this`calls, this`waiter
      ensures Inv(View()) && pending == map[] && waiter.Finished? && |calls| == |old(calls)|
      ensures forall n :: 0 <= n < |calls| ==>
        calls[n] == if n in old(pending).Values
                    then Call(old(calls)[n].stage, [Message.Exited], [Message.Exited])
                    else old(calls)[n]
    {
      hide CallKey, Inv, CallOk, PendingOk, Drained, Next, Enabled, HasRoom;
      ghost var before := View();
      DrainStart(before);
      while pending != map[]
        invariant Inv(View()) && waiter.Draining? && closed == before.closed && reader == before.reader
        invariant Drained(before, View())
        decreases |pending|
      {
        var key :| key in pending;
        ghost var s := View();
        PendingSizes(pending, key, 0);
        DrainStep(before, s, key);
        DrainEntry(key);
      }
      DrainEnd(before, View());
      UnlockStep(View());
      NextKeepsInv(View(), Unlock);
      waiter := Finished;
    }
  }

  /** What draining has made of call `n` when `left` is still pending. */
  ghost function DrainedCall(before: State, left: map<string, nat>, n: nat): Call
    requires n < |before.calls|
  {
    if n in before.pending.Values && n !in left.Values
    then Call(before.calls[n].stage, [Message.Exited], [Message.Exited])
    else before.calls[n]
  }

  /** `s` has drained some of the entries pending in `before`, and changed nothing else. */
  ghost predicate Drained(before: State, s: State) {
    && s.pending.Keys <= before.pending.Keys
    && (forall key :: key in s.pending ==> s.pending[key] == before.pending[key])
    && |s.calls| == |before.calls|
    && forall n :: 0 <= n < |s.calls| ==> s.calls[n] == DrainedCall(before, s.pending, n)
  }

  lemma DrainStart(before: State)
    ensures Drained(before, before)
  {
  }

  lemma DrainEnabled(s: State, key: string)
    requires Inv(s) && s.waiter.Draining? && key in s.pending
    ensures Enabled(s, DrainOne(key)) && s.calls[s.pending[key]].buffer == [] && s.calls[s.pending[key]].puts == []
    ensures s.pending[key] !in (s.pending - {key}).Values
  {
    hide CallKey;
    assert PendingOk(s, key) && CallOk(s, s.pending[key]);
    var left := s.pending - {key};
    forall k | k in left ensures left[k] != s.pending[key] {
      assert PendingOk(s, k);
    }
  }

  lemma OtherValuesStay(pending: map<string, nat>, key: string)
    requires key in pending
    ensures forall n :: n != pending[key] ==> (n in (pending - {key}).Values <==> n in pending.Values)
  {
    var left := pending - {key};
    forall n | n != pending[key] && n in pending.Values ensures n in left.Values {
      var k :| k in pending && pending[k] == n;
      assert k in left && left[k] == n;
    }
  }

  lemma DrainStep(before: State, s: State, key: string)
    requires Inv(s) && s.waiter.Draining? && key in s.pending && Drained(before, s)
    ensures Enabled(s, DrainOne(key))
    ensures var s', channel := Next(s, DrainOne(key)), s.pending[key];
      var c := s.calls[channel];
      && Inv(s') && Drained(before, s')
      && s' == s.(calls := s.calls[channel := Call(c.stage, c.buffer + [Message.Exited], c.puts + [Message.Exited])],
                  pending := s.pending - {key})
  {
    hide CallKey, Inv;
    DrainEnabled(s, key);
    NextKeepsInv(s, DrainOne(key));
    OtherValuesStay(s.pending, key);
    var channel, left := s.pending[key], s.pending - {key};
    assert before.pending[key] == channel && channel in before.pending.Values;
    assert channel in s.pending.Values;
    assert [] + [Message.Exited] == [Message.Exited];
  }

  lemma DrainEnd(before: State, s: State)
    requires Drained(before, s) && s.pending == map[]
    ensures |s.calls| == |before.calls|
    ensures forall n :: 0 <= n < |s.calls| ==>
      s.calls[n] == if n in before.pending.Values
                    then Call(before.calls[n].stage, [Message.Exited], [Message.Exited]) else before.calls[n]
  {
    assert s.pending.Values == {};
  }

  lemma UnlockStep(s: State)
    requires s.waiter.Draining? && s.pending == map[]
    ensures Enabled(s, Unlock) && Next(s, Unlock) == s.(waiter := Finished)
  {
  }
}
