/** What must follow what in the life of a request, and what each event says about the outside world.

    Together with termination these say that the router does what it is for: a request goes where it should, a turn
    that hits a usage limit continues elsewhere, and nobody is given up on without a cause. */
module RouterLaws {
  import opened Accounts
  import opened Protocol
  import opened Router
  import RouterResults
  import Quota
  import Store

  // ---- The order of events ----

  /** The request is delivered to this account, or that fails. */
  predicate Aims(next: Event, account: string, excluded: set<string>) {
    next == Delivered(account, excluded) || next.Failed?
  }

  /** An account outside `excluded` is chosen, or there is none. */
  predicate Picks(next: Event, excluded: set<string>) {
    (next.Chosen? && next.excluded == excluded) || (next.NoneLeft? && next.excluded == excluded)
  }

  /** How a request with this method and thread begins. */
  predicate Starts(first: Event, verb: string, thread: string) {
    if verb == "initialize" || verb == "thread/list" || verb == "account/rateLimits/read" then first.Computed?
    else if verb == "thread/start" then Picks(first, {})
    else if verb == "turn/start" && thread != "" then first.Checked? || first == Failed(NoAccount)
    else first.Routed? || first == Failed(NoAccount)
  }

  /** The error code the client gets for each cause. */
  predicate Explains(content: Content, reason: Reason, verb: string) {
    match reason
    case NoAccount => content == Refusal(-32022)
    case NotResumed => content == Refusal(-32027)
    case NotRecorded => content == Refusal(-32028)
    case _ => content == Refusal(if verb == "thread/start" then -32021 else -32023)
  }

  predicate Follows(before: Event, next: Event, verb: string, thread: string) {
    match before
    case Routed(account) => Aims(next, account, {})
    case Checked(owner, snapshot) =>
      if snapshot.None? || Quota.HasCapacity(snapshot.value) then Aims(next, owner, {}) else Picks(next, {owner})
    case Chosen(account, excluded, _) =>
      if excluded == {} then Aims(next, account, {}) else next == Resumed(thread, account) || next == Failed(NotResumed)
    case Resumed(_, account) => next == Recorded(thread, account) || next == Failed(NotRecorded)
    case Recorded(_, account) => (next.Delivered? && next.account == account) || next.Failed?
    case Delivered(account, excluded) =>
      || (next == Limited(account, excluded) && verb == "turn/start")
      || (next.Replied? && next.account == account && !(verb == "turn/start" && next.response.usageLimit))
    case Limited(account, excluded) =>
      if thread == "" then next == Answered(Refusal(-32026)) else Picks(next, excluded + {account})
    case NoneLeft(_, _) => next == Answered(Refusal(-32026))
    case Failed(reason) => next.Answered? && Explains(next.content, reason, verb)
    case Replied(_, response) => next == Answered(FromChild(response))
    case Computed => next == Answered(Composed)
    case Answered(_) => false
  }

  predicate NextOk(trace: seq<Event>, e: Event, verb: string, thread: string) {
    if trace == [] then Starts(e, verb, thread) else Follows(trace[|trace| - 1], e, verb, thread)
  }

  ghost predicate LawfulTrace(trace: seq<Event>, verb: string, thread: string) {
    forall p :: 0 <= p < |trace| ==> NextOk(trace[..p], trace[p], verb, thread)
  }

  /** Where a request is fits what happened to it last. */
  ghost predicate Fits(r: Request) {
    var verb, thread := r.message.verb, r.message.threadId;
    match r.at
    case Computing => r.trace == [] && (verb == "initialize" || verb == "thread/list" || verb == "account/rateLimits/read")
    case ChoosingNew => r.trace == [] && verb == "thread/start"
    case Routing =>
      && r.trace == [] && verb != "initialize" && verb != "thread/list" && verb != "account/rateLimits/read"
      && verb != "thread/start"
    case CheckingOwner(t, _) => r.trace == [] && verb == "turn/start" && t == thread && t != ""
    case FailingOver(t, _, excluded) =>
      && t == thread && excluded != {} && r.trace != []
      && forall snapshots :: NextOk(r.trace, NoneLeft(excluded, snapshots), verb, thread)
    case Resuming(t, _, target, excluded) =>
      t == thread && excluded != {} && r.trace != [] && EndsChosen(r.trace[|r.trace| - 1], target, excluded)
    case Recording(t, target, _) => t == thread && r.trace != [] && r.trace[|r.trace| - 1] == Resumed(t, target)
    case Forwarding(account, excluded) =>
      NextOk(r.trace, Delivered(account, excluded), verb, thread) && r.trace != []
    case Sending(account, excluded) =>
      NextOk(r.trace, Delivered(account, excluded), verb, thread) && r.trace != []
    case Unrouting(_, _) => r.trace != [] && r.trace[|r.trace| - 1] == Failed(NotSent)
    case AtChild(account, excluded) => r.trace != [] && r.trace[|r.trace| - 1] == Delivered(account, excluded)
    case Arriving(account, excluded, _) => r.trace != [] && r.trace[|r.trace| - 1] == Delivered(account, excluded)
    case Learning(route, account, response) =>
      && r.trace != [] && r.trace[|r.trace| - 1] == Replied(account, response) && route.verb == verb
    case Retrying(route, account) =>
      r.trace != [] && r.trace[|r.trace| - 1] == Limited(account, route.excluded) && route.message == r.message
    case Answering(_, content) => NextOk(r.trace, Answered(content), verb, thread) && r.trace != []
    case Done => r.trace != [] && r.trace[|r.trace| - 1].Answered?
    case Lost => false
  }

  predicate EndsChosen(last: Event, target: string, excluded: set<string>) {
    last.Chosen? && last.account == target && last.excluded == excluded
  }

  ghost predicate Lawful(r: Request) {
    LawfulTrace(r.trace, r.message.verb, r.message.threadId) && Fits(r)
  }

  lemma LawfulSnoc(trace: seq<Event>, e: Event, verb: string, thread: string)
    requires LawfulTrace(trace, verb, thread) && NextOk(trace, e, verb, thread)
    ensures LawfulTrace(trace + [e], verb, thread)
  {
    hide NextOk;
    var all := trace + [e];
    forall p | 0 <= p < |all| ensures NextOk(all[..p], all[p], verb, thread) {
      if p < |trace| {
        assert all[..p] == trace[..p] && all[p] == trace[p];
      } else {
        assert all[..p] == trace;
      }
    }
  }

  /** One more event, to a place that fits it. */
  lemma LawfulMove(r: Request, next: Request, e: Event)
    requires LawfulTrace(r.trace, r.message.verb, r.message.threadId)
    requires next.message.verb == r.message.verb && next.message.threadId == r.message.threadId
    requires next.trace == r.trace + [e] && NextOk(r.trace, e, r.message.verb, r.message.threadId) && Fits(next)
    ensures Lawful(next)
  {
    hide NextOk, Fits, LawfulTrace;
    LawfulSnoc(r.trace, e, r.message.verb, r.message.threadId);
  }

  lemma RoutingStepLawful(s: State, a: Action)
    requires Enabled(s, a) && a.RouteExisting? && Lawful(s.requests[a.n])
    ensures Lawful(Next(s, a).requests[a.n])
  {
    hide RequestIDKey, RouteMessage, LawfulTrace;
    var r, r' := s.requests[a.n], Next(s, a).requests[a.n];
    RouteMessageFacts(r.message, s.accounts, s.owners);
    var (message, to) := RouteMessage(r.message, s.accounts, s.owners);
    if to.CheckingOwner? {
      assert r.trace + [] == r.trace;
    } else {
      LawfulMove(r, r', RouteEvents(to)[0]);
    }
  }

  lemma ComputeStepLawful(s: State, a: Action)
    requires Enabled(s, a) && a.Compute? && Lawful(s.requests[a.n])
    ensures Lawful(Next(s, a).requests[a.n])
  {
    hide RequestIDKey, LawfulTrace;
    LawfulMove(s.requests[a.n], Next(s, a).requests[a.n], Computed);
  }

  lemma CheckStepLawful(s: State, a: Action)
    requires Enabled(s, a) && (a.CheckOwner? || a.ChooseNew?) && Lawful(s.requests[a.n])
    ensures Lawful(Next(s, a).requests[a.n])
  {
    hide RequestIDKey, Quota.Choose, Quota.HasCapacity, LawfulTrace;
    var r, r' := s.requests[a.n], Next(s, a).requests[a.n];
    LawfulMove(r, r', r'.trace[|r.trace|]);
  }

  lemma FallbackStepLawful(s: State, a: Action)
    requires Inv(s) && Enabled(s, a) && a.ChooseFallback? && Lawful(s.requests[a.n])
    ensures Lawful(Next(s, a).requests[a.n])
  {
    hide Inv, RequestIDKey, Quota.Choose, Quota.HasCapacity, LawfulTrace;
    var r, r' := s.requests[a.n], Next(s, a).requests[a.n];
    assert NextOk(r.trace, NoneLeft(r.at.excluded, a.snapshots), r.message.verb, r.message.threadId);
    LawfulMove(r, r', r'.trace[|r.trace|]);
  }

  lemma ResumeStepLawful(s: State, a: Action)
    requires Enabled(s, a) && a.Resume? && Lawful(s.requests[a.n])
    ensures Lawful(Next(s, a).requests[a.n])
  {
    hide RequestIDKey, LawfulTrace, Quota.HasCapacity;
    var r, r' := s.requests[a.n], Next(s, a).requests[a.n];
    LawfulMove(r, r', r'.trace[|r.trace|]);
  }

  lemma RecordStepLawful(s: State, a: Action)
    requires Enabled(s, a) && a.Record? && Lawful(s.requests[a.n])
    ensures Lawful(Next(s, a).requests[a.n])
  {
    hide RequestIDKey, SetOwner, LawfulTrace, Quota.HasCapacity;
    var r, r' := s.requests[a.n], Next(s, a).requests[a.n];
    LawfulMove(r, r', r'.trace[|r.trace|]);
  }

  /** Wherever a delivery may follow, so may a failure to deliver. */
  lemma FailureFits(trace: seq<Event>, account: string, excluded: set<string>, reason: Reason, verb: string, thread: string)
    requires trace != [] && NextOk(trace, Delivered(account, excluded), verb, thread)
    requires reason == NoChild || reason == NotSent
    ensures NextOk(trace, Failed(reason), verb, thread)
  {
    hide Quota.HasCapacity;
  }

  lemma RegisterStepLawful(s: State, a: Action)
    requires Enabled(s, a) && a.Register? && Lawful(s.requests[a.n])
    ensures Lawful(Next(s, a).requests[a.n])
  {
    hide RequestIDKey, LawfulTrace, NextOk;
    var r, r' := s.requests[a.n], Next(s, a).requests[a.n];
    FailureFits(r.trace, r.at.account, r.at.excluded, NoChild, r.message.verb, r.message.threadId);
    if r.at.account in s.children {
      assert r.trace + [] == r.trace;
    } else {
      AnswerFits(r.trace, Failed(NoChild), r'.at.content, r.message.verb, r.message.threadId);
      LawfulMove(r, r', Failed(NoChild));
    }
  }

  lemma SendStepLawful(s: State, a: Action)
    requires Enabled(s, a) && a.Send? && Lawful(s.requests[a.n])
    ensures Lawful(Next(s, a).requests[a.n])
  {
    hide RequestIDKey, LawfulTrace, NextOk;
    var r, r' := s.requests[a.n], Next(s, a).requests[a.n];
    FailureFits(r.trace, r.at.account, r.at.excluded, NotSent, r.message.verb, r.message.threadId);
    LawfulMove(r, r', if a.ok then Delivered(r.at.account, r.at.excluded) else Failed(NotSent));
  }

  lemma AnswerFits(trace: seq<Event>, e: Event, content: Content, verb: string, thread: string)
    requires e.Failed? && Explains(content, e.reason, verb)
    ensures NextOk(trace + [e], Answered(content), verb, thread)
  {
  }

  lemma ReceiveStepLawful(s: State, a: Action)
    requires Inv(s) && Enabled(s, a) && a.Receive? && Lawful(s.requests[a.n])
    ensures Lawful(Next(s, a).requests[a.n])
  {
    hide Inv, RequestIDKey, LawfulTrace, Traced, Quota.HasCapacity;
    RequestFacts(s, a.n);
    var r, r' := s.requests[a.n], Next(s, a).requests[a.n];
    LawfulMove(r, r', r'.trace[|r.trace|]);
  }

  lemma ChildStepLawful(s: State, a: Action)
    requires Enabled(s, a) && (a.Unroute? || a.ChildAnswers?) && Lawful(s.requests[a.n])
    ensures Lawful(Next(s, a).requests[a.n])
  {
    hide RequestIDKey, LawfulTrace, Quota.HasCapacity;
    assert s.requests[a.n].trace + [] == s.requests[a.n].trace;
  }

  lemma LearnStepLawful(s: State, a: Action)
    requires Enabled(s, a) && (a.Learn? || a.Retry?) && Lawful(s.requests[a.n])
    ensures Lawful(Next(s, a).requests[a.n])
  {
    hide RequestIDKey, Learned, LawfulTrace, Quota.HasCapacity;
    assert s.requests[a.n].trace + [] == s.requests[a.n].trace;
  }

  lemma WriteStepLawful(s: State, a: Action)
    requires Enabled(s, a) && a.Write? && Lawful(s.requests[a.n])
    ensures Lawful(Next(s, a).requests[a.n])
  {
    hide RequestIDKey, LawfulTrace, Quota.HasCapacity;
    var r, r' := s.requests[a.n], Next(s, a).requests[a.n];
    LawfulMove(r, r', Answered(r.at.content));
  }

  lemma AcceptLawful(m: Message)
    ensures Lawful(Request(m, Dispatch(m), []))
  {
  }

  ghost predicate AllLawful(s: State) {
    forall n :: 0 <= n < |s.requests| ==> Lawful(s.requests[n])
  }

  lemma StepKeepsLawful(s: State, a: Action)
    requires Inv(s) && Enabled(s, a) && AllLawful(s)
    ensures AllLawful(Next(s, a))
  {
    hide Inv, Lawful, Next, Enabled;
    if RouterResults.Internal(a) {
      RouterResults.StepMovesOne(s, a);
      OwnStepLawful(s, a);
      var s' := Next(s, a);
      forall n | 0 <= n < |s'.requests| ensures Lawful(s'.requests[n]) {
        assert n != a.n ==> s'.requests[n] == s.requests[n];
      }
    } else {
      OutsideStepLawful(s, a);
    }
  }

  lemma OutsideStepLawful(s: State, a: Action)
    requires Enabled(s, a) && (a.Accept? || a.Environment?) && AllLawful(s)
    ensures AllLawful(Next(s, a))
  {
    hide Lawful, RequestIDKey, Dispatch;
    if a.Accept? {
      AcceptLawful(a.m);
    }
  }

  lemma OwnStepLawful(s: State, a: Action)
    requires Inv(s) && Enabled(s, a) && RouterResults.Internal(a) && a.n < |s.requests| && Lawful(s.requests[a.n])
    ensures a.n < |Next(s, a).requests| && Lawful(Next(s, a).requests[a.n])
  {
    hide Inv, Lawful, Next, Enabled;
    RouterResults.StepMovesOne(s, a);
    if a.RouteExisting? {
      RoutingStepLawful(s, a);
    } else if a.Compute? {
      ComputeStepLawful(s, a);
    } else if a.CheckOwner? || a.ChooseNew? {
      CheckStepLawful(s, a);
    } else if a.ChooseFallback? {
      FallbackStepLawful(s, a);
    } else if a.Resume? {
      ResumeStepLawful(s, a);
    } else if a.Record? {
      RecordStepLawful(s, a);
    } else if a.Register? {
      RegisterStepLawful(s, a);
    } else if a.Send? {
      SendStepLawful(s, a);
    } else if a.Receive? {
      ReceiveStepLawful(s, a);
    } else if a.Unroute? || a.ChildAnswers? {
      ChildStepLawful(s, a);
    } else if a.Learn? || a.Retry? {
      LearnStepLawful(s, a);
    } else {
      WriteStepLawful(s, a);
    }
  }

  lemma {:induction false} RunKeepsLawful(s: State, actions: seq<Action>)
    requires Inv(s) && Legal(s, actions) && AllLawful(s)
    ensures AllLawful(After(s, actions))
    decreases |actions|
  {
    hide Inv, Next, Enabled, AllLawful;
    if actions != [] {
      NextKeepsInv(s, actions[0]);
      StepKeepsLawful(s, actions[0]);
      RunKeepsLawful(Next(s, actions[0]), actions[1..]);
    }
  }

  // ---- Laws of every run ----

  /** In every run, what happens to a request happens in this order. */
  lemma TracesLawful(s: State, actions: seq<Action>, n: nat)
    requires Initial(s) && Legal(s, actions) && n < |After(s, actions).requests|
    ensures var r := After(s, actions).requests[n]; LawfulTrace(r.trace, r.message.verb, r.message.threadId)
  {
    hide After, Legal, Initial, LawfulTrace, Fits;
    ReachableLawful(s, actions);
    assert Lawful(After(s, actions).requests[n]);
  }

  lemma ReachableLawful(s: State, actions: seq<Action>)
    requires Initial(s) && Legal(s, actions)
    ensures AllLawful(After(s, actions))
  {
    hide After, Legal, Inv, Lawful;
    assert Legal(s, []) && After(s, []) == s by { NoSteps(s); }
    RouterResults.ReachableInv(s, []);
    RunKeepsLawful(s, actions);
  }

  lemma NoSteps(s: State)
    ensures Legal(s, []) && After(s, []) == s
  {
  }

  lemma Preceded(trace: seq<Event>, verb: string, thread: string, p: nat)
    requires LawfulTrace(trace, verb, thread) && 0 < p < |trace|
    ensures Follows(trace[p - 1], trace[p], verb, thread)
  {
    hide Follows;
    assert NextOk(trace[..p], trace[p], verb, thread);
    assert trace[..p] != [] && trace[..p][|trace[..p]| - 1] == trace[p - 1];
  }

  lemma Started(trace: seq<Event>, verb: string, thread: string)
    requires LawfulTrace(trace, verb, thread) && trace != []
    ensures Starts(trace[0], verb, thread)
  {
    hide Starts;
    assert NextOk(trace[..0], trace[0], verb, thread);
  }

  ghost predicate NoDelivery(trace: seq<Event>, p: nat, q: nat) {
    forall i :: p < i < q && i < |trace| ==> !trace[i].Delivered?
  }

  /** A turn with a thread that hit an account's usage limit is answered without reaching another account only when no
      account was left to choose outside the accounts excluded so far and this one, or a step of the move failed. */
  lemma LimitedTurnContinues(s: State, actions: seq<Action>, n: nat, p: nat, q: nat)
    requires Initial(s) && Legal(s, actions) && n < |After(s, actions).requests|
    requires var r := After(s, actions).requests[n];
      && p < q < |r.trace| && r.trace[p].Limited? && r.trace[q].Answered? && r.message.threadId != ""
      && NoDelivery(r.trace, p, q)
    ensures var trace := After(s, actions).requests[n].trace;
      && q > p + 1
      && (|| trace[q - 1].Failed?
          || (trace[q - 1].NoneLeft? && q == p + 2 && trace[q - 1].excluded == trace[p].excluded + {trace[p].account}))
  {
    hide After, Legal, Initial, LawfulTrace, Quota.HasCapacity;
    TracesLawful(s, actions, n);
    var r := After(s, actions).requests[n];
    LimitedTrace(r.trace, r.message.verb, r.message.threadId, p, q);
  }

  lemma LimitedTrace(trace: seq<Event>, verb: string, thread: string, p: nat, q: nat)
    requires LawfulTrace(trace, verb, thread) && thread != ""
    requires p < q < |trace| && trace[p].Limited? && trace[q].Answered? && NoDelivery(trace, p, q)
    ensures q > p + 1
    ensures trace[q - 1].Failed? ||
            (trace[q - 1].NoneLeft? && q == p + 2 && trace[q - 1].excluded == trace[p].excluded + {trace[p].account})
  {
    hide LawfulTrace, Quota.HasCapacity;
    Preceded(trace, verb, thread, q);
    Preceded(trace, verb, thread, p + 1);
    if q > p + 2 {
      Preceded(trace, verb, thread, q - 1);
      if q > p + 3 {
        Preceded(trace, verb, thread, q - 2);
      }
    }
    if p + 1 < q - 1 {
      Preceded(trace, verb, thread, p + 2);
    }
  }

  /** An answer that is no usage limit goes to the client: the request is never delivered again, and for a turn the
      answer that goes to the client never is a usage limit. */
  lemma RepliesEndRequests(s: State, actions: seq<Action>, n: nat, p: nat)
    requires Initial(s) && Legal(s, actions) && n < |After(s, actions).requests|
    requires p < |After(s, actions).requests[n].trace| && After(s, actions).requests[n].trace[p].Replied?
    ensures var r := After(s, actions).requests[n];
      && (p + 1 < |r.trace| ==> r.trace[p + 1] == Answered(FromChild(r.trace[p].response))) && |r.trace| <= p + 2
      && p > 0 && r.trace[p - 1].Delivered? && r.trace[p - 1].account == r.trace[p].account
      && !(r.message.verb == "turn/start" && r.trace[p].response.usageLimit)
  {
    hide After, Legal, Initial, LawfulTrace, Quota.HasCapacity;
    TracesLawful(s, actions, n);
    var r := After(s, actions).requests[n];
    Started(r.trace, r.message.verb, r.message.threadId);
    Preceded(r.trace, r.message.verb, r.message.threadId, p);
    if p + 1 < |r.trace| {
      Preceded(r.trace, r.message.verb, r.message.threadId, p + 1);
    }
    if p + 2 < |r.trace| {
      Preceded(r.trace, r.message.verb, r.message.threadId, p + 2);
    }
  }

  /** What a request's history says the client was told. */
  function Tells(r: Request): multiset<Answer> {
    if r.trace != [] && r.trace[|r.trace| - 1].Answered?
    then multiset{Answer(KeyOf(r), r.trace[|r.trace| - 1].content)} else multiset{}
  }

  function Told(rs: seq<Request>): multiset<Answer> {
    if rs == [] then multiset{} else Told(rs[..|rs| - 1]) + Tells(rs[|rs| - 1])
  }

  lemma {:induction false} ToldUpdate(rs: seq<Request>, n: nat, r: Request)
    requires n < |rs|
    ensures Told(rs[n := r]) + Tells(rs[n]) == Told(rs) + Tells(r)
  {
    hide Tells;
    var init := rs[..|rs| - 1];
    if n < |rs| - 1 {
      ToldUpdate(init, n, r);
      assert rs[n := r][..|rs| - 1] == init[n := r];
      assert Told(rs[n := r]) + Tells(rs[n]) == Tells(rs[|rs| - 1]) + (Told(init[n := r]) + Tells(rs[n]));
      assert Told(rs) + Tells(r) == Tells(rs[|rs| - 1]) + (Told(init) + Tells(r));
    } else {
      assert rs[n := r][..|rs| - 1] == init;
    }
  }

  /** Until the answer is written the history does not end with one. */
  lemma NothingTold(r: Request)
    requires Lawful(r) && !r.at.Done?
    ensures Tells(r) == multiset{}
  {
    hide KeyOf, LawfulTrace, Quota.HasCapacity;
    if r.at.FailingOver? {
      assert NextOk(r.trace, NoneLeft(r.at.excluded, []), r.message.verb, r.message.threadId);
    }
  }

  lemma OnlyWriteTells(s: State, a: Action)
    requires Enabled(s, a) && RouterResults.Internal(a) && !a.Write? && a.n < |s.requests| && a.n < |Next(s, a).requests|
    ensures Next(s, a).output == s.output && !s.requests[a.n].at.Done? && !Next(s, a).requests[a.n].at.Done?
  {
    hide Next, Enabled;
    if a.Compute? || a.RouteExisting? || a.CheckOwner? || a.ChooseNew? || a.ChooseFallback? || a.Resume? {
      EarlyStepQuiet(s, a);
    } else {
      LateStepQuiet(s, a);
    }
  }

  lemma EarlyStepQuiet(s: State, a: Action)
    requires Enabled(s, a)
    requires a.Compute? || a.RouteExisting? || a.CheckOwner? || a.ChooseNew? || a.ChooseFallback? || a.Resume?
    ensures Next(s, a).output == s.output && !s.requests[a.n].at.Done? && a.n < |Next(s, a).requests|
    ensures !Next(s, a).requests[a.n].at.Done?
  {
    hide RequestIDKey, Quota.Choose, Quota.HasCapacity, RouteMessage;
    if a.RouteExisting? {
      RouteMessageFacts(s.requests[a.n].message, s.accounts, s.owners);
    }
  }

  lemma LateStepQuiet(s: State, a: Action)
    requires Enabled(s, a)
    requires a.Record? || a.Register? || a.Send? || a.Unroute? || a.ChildAnswers? || a.Receive? || a.Learn? || a.Retry?
    ensures Next(s, a).output == s.output && !s.requests[a.n].at.Done? && a.n < |Next(s, a).requests|
    ensures !Next(s, a).requests[a.n].at.Done?
  {
    hide RequestIDKey, Learned, SetOwner;
  }

  lemma WriteTells(s: State, n: nat)
    requires Inv(s) && Enabled(s, Write(n)) && n < |s.requests|
    ensures var s', r' := Next(s, Write(n)), Next(s, Write(n)).requests[n];
      multiset(s'.output) == multiset(s.output) + Tells(r') && !s.requests[n].at.Done?
  {
    hide Inv, RequestIDKey, Traced;
    RequestFacts(s, n);
    var r, r' := s.requests[n], Next(s, Write(n)).requests[n];
    assert r'.trace[|r'.trace| - 1] == Answered(r.at.content);
  }

  lemma OwnStepTells(s: State, a: Action)
    requires Inv(s) && Enabled(s, a) && RouterResults.Internal(a) && a.n < |s.requests| && a.n < |Next(s, a).requests|
    requires Lawful(s.requests[a.n]) && Lawful(Next(s, a).requests[a.n])
    ensures var s' := Next(s, a);
      multiset(s'.output) + Tells(s.requests[a.n]) == multiset(s.output) + Tells(s'.requests[a.n])
  {
    hide Inv, Lawful, Next, Enabled, Tells;
    if a.Write? {
      WriteTells(s, a.n);
    } else {
      OnlyWriteTells(s, a);
      NothingTold(Next(s, a).requests[a.n]);
    }
    NothingTold(s.requests[a.n]);
  }

  lemma StepTells(s: State, a: Action)
    requires Inv(s) && Enabled(s, a) && AllLawful(s) && multiset(s.output) == Told(s.requests)
    ensures multiset(Next(s, a).output) == Told(Next(s, a).requests)
  {
    var s' := Next(s, a);
    StepKeepsLawful(s, a);
    hide Inv, Lawful, Next, Enabled, Tells;
    if RouterResults.Internal(a) {
      RouterResults.StepMovesOne(s, a);
      OwnStepTells(s, a);
      ToldUpdate(s.requests, a.n, s'.requests[a.n]);
      Cancel(multiset(s'.output), Told(s'.requests), Told(s.requests), Tells(s.requests[a.n]), Tells(s'.requests[a.n]));
    } else {
      OutsideStepTells(s, a);
    }
  }

  lemma Cancel<T>(x: multiset<T>, y: multiset<T>, common: multiset<T>, a: multiset<T>, b: multiset<T>)
    requires x + a == common + b && y + a == common + b
    ensures x == y
  {
    forall k ensures x[k] == y[k] {
      assert (x + a)[k] == (y + a)[k];
    }
  }

  lemma OutsideStepTells(s: State, a: Action)
    requires Enabled(s, a) && (a.Accept? || a.Environment?) && multiset(s.output) == Told(s.requests)
    ensures multiset(Next(s, a).output) == Told(Next(s, a).requests)
  {
    hide RequestIDKey;
    if a.Accept? {
      assert Next(s, a).requests[..|s.requests|] == s.requests;
    }
  }

  lemma {:induction false} RunTells(s: State, actions: seq<Action>)
    requires Inv(s) && Legal(s, actions) && AllLawful(s) && multiset(s.output) == Told(s.requests)
    ensures multiset(After(s, actions).output) == Told(After(s, actions).requests)
    decreases |actions|
  {
    hide Inv, Next, Enabled, AllLawful, Told;
    if actions != [] {
      NextKeepsInv(s, actions[0]);
      StepKeepsLawful(s, actions[0]);
      StepTells(s, actions[0]);
      RunTells(Next(s, actions[0]), actions[1..]);
    }
  }

  /** In every run the answers written are, key and content, exactly those the histories of the requests end with: the
      child's own answer, or the error that names why there is none. */
  lemma ClientIsTold(s: State, actions: seq<Action>)
    requires Initial(s) && Legal(s, actions)
    ensures multiset(After(s, actions).output) == Told(After(s, actions).requests)
  {
    hide After, Legal, Inv, LawfulTrace, Fits;
    assert Legal(s, []) && After(s, []) == s by { NoSteps(s); }
    RouterResults.ReachableInv(s, []);
    RunTells(s, actions);
  }

  /** A turn stays with its owner when the owner has capacity, or its quota cannot be looked up; otherwise another
      account is chosen, the owner excluded. */
  lemma TurnsCheckTheirOwner(s: State, actions: seq<Action>, n: nat)
    requires Initial(s) && Legal(s, actions) && n < |After(s, actions).requests|
    requires var r := After(s, actions).requests[n];
      r.message.verb == "turn/start" && r.message.threadId != "" && |r.trace| > 1
    ensures var trace := After(s, actions).requests[n].trace;
      || (trace[0] == Failed(NoAccount) && trace[1] == Answered(Refusal(-32022)))
      || (&& trace[0].Checked?
          && if trace[0].snapshot.None? || Quota.HasCapacity(trace[0].snapshot.value)
             then Aims(trace[1], trace[0].owner, {})
             else Picks(trace[1], {trace[0].owner}))
  {
    hide After, Legal, Initial, LawfulTrace, Quota.HasCapacity;
    TracesLawful(s, actions, n);
    var r := After(s, actions).requests[n];
    Started(r.trace, r.message.verb, r.message.threadId);
    Preceded(r.trace, r.message.verb, r.message.threadId, 1);
  }

  /** A new thread goes to the chosen account; only new threads and turns with a thread ever choose. */
  lemma WhoChooses(s: State, actions: seq<Action>, n: nat, p: nat)
    requires Initial(s) && Legal(s, actions) && n < |After(s, actions).requests|
    requires p < |After(s, actions).requests[n].trace|
    ensures var r := After(s, actions).requests[n];
      && (r.trace[p].Chosen? || r.trace[p].NoneLeft? ==>
            if p == 0 then r.message.verb == "thread/start" else r.message.verb == "turn/start" && r.message.threadId != "")
      && (r.message.verb == "thread/start" && p == 0 ==>
            Picks(r.trace[0], {}) && (r.trace[0].Chosen? && |r.trace| > 1 ==> Aims(r.trace[1], r.trace[0].account, {})))
  {
    hide After, Legal, Initial, LawfulTrace, Quota.HasCapacity;
    TracesLawful(s, actions, n);
    var r := After(s, actions).requests[n];
    Started(r.trace, r.message.verb, r.message.threadId);
    if p > 0 {
      Preceded(r.trace, r.message.verb, r.message.threadId, p);
      if p > 1 {
        Preceded(r.trace, r.message.verb, r.message.threadId, p - 1);
      }
    }
    if |r.trace| > 1 {
      Preceded(r.trace, r.message.verb, r.message.threadId, 1);
    }
  }

  // ---- Events tell the truth ----

  /** What the outside world was like when step `a` added event `e` to its request. */
  ghost predicate True(s: State, a: Action, e: Event)
    requires RouterResults.Internal(a) && a.n < |s.requests| && Enabled(s, a)
  {
    var r := s.requests[a.n];
    match e
    case Computed => a.Compute?
    case Routed(account) => a.RouteExisting? && account in Ids(s.accounts)
    case Checked(owner, snapshot) => a.CheckOwner? && snapshot == a.snapshot && r.at.CheckingOwner? && owner == r.at.owner
    case Chosen(account, excluded, snapshots) =>
      && (a.ChooseNew? || a.ChooseFallback?) && snapshots == a.snapshots && account !in excluded
      && account in Ids(s.accounts)
      && exists snapshot :: snapshot in snapshots && snapshot.id == account && Quota.HasCapacity(snapshot)
    case NoneLeft(excluded, snapshots) =>
      && (a.ChooseNew? || a.ChooseFallback?) && snapshots == a.snapshots
      && forall snapshot :: snapshot in snapshots && Quota.HasCapacity(snapshot) && Find(s.accounts, snapshot.id).Some? ==>
           snapshot.id in excluded
    case Resumed(_, account) => a.Resume? && a.ok && account in s.children
    case Recorded(thread, account) =>
      a.Record? && thread in Next(s, a).owners && Next(s, a).owners[thread] == account
    case Delivered(_, _) => a.Send? && a.ok
    case Limited(account, _) =>
      a.Receive? && r.at.Arriving? && r.at.account == account && r.at.response.usageLimit && r.message.verb == "turn/start"
    case Replied(account, response) => a.Receive? && r.at.Arriving? && r.at.account == account && r.at.response == response
    case Failed(NoAccount) => a.RouteExisting? && s.accounts == []
    case Failed(NotResumed) =>
      a.Resume? && r.at.Resuming? && (!a.ok || r.at.source !in s.children || r.at.target !in s.children)
    case Failed(NotRecorded) => a.Record? && r.at.Recording? && (!a.saved || r.at.thread == "" || r.at.target == "")
    case Failed(NoChild) => a.Register? && r.at.Forwarding? && r.at.account !in s.children
    case Failed(NotSent) => a.Send? && !a.ok
    case Answered(content) => a.Write? && r.at.Answering? && content == r.at.content
  }

  /** At most one event is added, and it is true. */
  ghost predicate Reports(s: State, a: Action, r': Request)
    requires RouterResults.Internal(a) && a.n < |s.requests| && Enabled(s, a)
  {
    var trace := s.requests[a.n].trace;
    r'.trace == trace || (|r'.trace| == |trace| + 1 && r'.trace == trace + [r'.trace[|trace|]] && True(s, a, r'.trace[|trace|]))
  }

  lemma RoutingReports(s: State, a: Action)
    requires Enabled(s, a) && a.RouteExisting?
    requires Store.OwnersKnown(s.accounts, s.owners) && forall x :: x in s.accounts ==> x.id != ""
    ensures Reports(s, a, Next(s, a).requests[a.n])
  {
    hide RouteMessage, Ids, Store.OwnersKnown;
    var r := s.requests[a.n];
    RouteMessageFacts(r.message, s.accounts, s.owners);
    RouterResults.RoutedToKnownAccount(r.message, s.accounts, s.owners);
    assert r.trace + [] == r.trace;
  }

  lemma ChoiceReports(s: State, a: Action)
    requires Enabled(s, a) && (a.ChooseNew? || a.ChooseFallback?)
    ensures Reports(s, a, Next(s, a).requests[a.n])
  {
    hide Quota.Choose, Quota.HasCapacity, Find;
    var excluded := if a.ChooseNew? then {} else s.requests[a.n].at.excluded;
    Quota.ChosenHasCapacity(a.snapshots, excluded, s.accounts, a.credits, a.now);
    Quota.ChoiceFailsIff(a.snapshots, excluded, s.accounts, a.credits, a.now);
    var choice := Quota.Choose(a.snapshots, excluded, s.accounts, a.credits, a.now);
    if choice.Some? {
      var i :| 0 <= i < |s.accounts| && s.accounts[i] == choice.value;
      assert s.accounts[i].id in Ids(s.accounts);
    }
  }

  lemma MoveReports(s: State, a: Action)
    requires Enabled(s, a) && (a.Resume? || a.Record?)
    ensures Reports(s, a, Next(s, a).requests[a.n])
  {
    hide RequestIDKey;
  }

  lemma ForwardReports(s: State, a: Action)
    requires Enabled(s, a) && (a.Register? || a.Send?)
    ensures Reports(s, a, Next(s, a).requests[a.n])
  {
    hide RequestIDKey;
    var r := s.requests[a.n];
    assert r.trace + [] == r.trace;
  }

  lemma ReceiveReports(s: State, a: Action)
    requires Inv(s) && Enabled(s, a) && a.Receive?
    ensures Reports(s, a, Next(s, a).requests[a.n])
  {
    hide Inv, RequestIDKey, Traced;
    RequestFacts(s, a.n);
    var r := s.requests[a.n];
    assert r.trace + [] == r.trace;
  }

  lemma OtherReports(s: State, a: Action)
    requires Enabled(s, a)
    requires a.Compute? || a.CheckOwner? || a.Unroute? || a.ChildAnswers? || a.Learn? || a.Retry? || a.Write?
    ensures Reports(s, a, Next(s, a).requests[a.n])
  {
    hide RequestIDKey, Learned, Quota.HasCapacity;
    var r := s.requests[a.n];
    assert r.trace + [] == r.trace;
  }

  /** Every step adds at most one event to its request, and no event is invented: a request is given up on only for the
      cause the event names. */
  lemma StepsReport(s: State, a: Action)
    requires Inv(s) && Enabled(s, a) && RouterResults.Internal(a)
    requires Store.OwnersKnown(s.accounts, s.owners) && forall x :: x in s.accounts ==> x.id != ""
    ensures a.n < |s.requests| && a.n < |Next(s, a).requests| && Reports(s, a, Next(s, a).requests[a.n])
  {
    hide Inv, Next, Enabled, Reports;
    RouterResults.StepMovesOne(s, a);
    if a.RouteExisting? {
      RoutingReports(s, a);
    } else if a.ChooseNew? || a.ChooseFallback? {
      ChoiceReports(s, a);
    } else if a.Resume? || a.Record? {
      MoveReports(s, a);
    } else if a.Register? || a.Send? {
      ForwardReports(s, a);
    } else if a.Receive? {
      ReceiveReports(s, a);
    } else {
      OtherReports(s, a);
    }
  }

  // ---- Who owns a thread ----

  /** The methods whose answer names a thread of the answering account. */
  predicate NamesThread(verb: string) {
    verb == "thread/start" || verb == "thread/fork" || verb == "thread/resume" || verb == "thread/unarchive"
  }

  /** The step records an owner for `thread`, whoever it is. */
  ghost predicate Touches(s: State, a: Action, thread: string) {
    match a
    case Record(n, _) => n < |s.requests| && s.requests[n].at.Recording? && s.requests[n].at.thread == thread
    case Learn(n, _) => n < |s.requests| && s.requests[n].at.Learning? && s.requests[n].at.response.threadId == thread
    case Environment(_, _, owners) => !RouterResults.SameOwner(s.owners, owners, thread)
    case _ => false
  }

  ghost predicate Untouched(s: State, actions: seq<Action>, thread: string)
    requires Legal(s, actions)
    decreases |actions|
  {
    actions == [] || (!Touches(s, actions[0], thread) && Untouched(Next(s, actions[0]), actions[1..], thread))
  }

  lemma UntouchedStep(s: State, a: Action, thread: string)
    requires Enabled(s, a) && !Touches(s, a, thread)
    ensures RouterResults.SameOwner(s.owners, Next(s, a).owners, thread)
  {
    if a.Record? || a.Learn? || a.Environment? {
      hide RequestIDKey;
    } else {
      OwnersLeftAlone(s, a);
    }
  }

  lemma OwnersLeftAlone(s: State, a: Action)
    requires Enabled(s, a) && !a.Record? && !a.Learn? && !a.Environment?
    ensures Next(s, a).owners == s.owners
  {
    hide RequestIDKey, Quota.Choose, Quota.HasCapacity, RouteMessage;
  }

  lemma {:induction false} UntouchedRun(s: State, actions: seq<Action>, thread: string)
    requires Legal(s, actions) && Untouched(s, actions, thread)
    ensures RouterResults.SameOwner(s.owners, After(s, actions).owners, thread)
    decreases |actions|
  {
    hide Next, Enabled, Touches;
    if actions != [] {
      UntouchedStep(s, actions[0], thread);
      UntouchedRun(Next(s, actions[0]), actions[1..], thread);
    }
  }

  /** Passing on the answer to thread/start, fork, resume or unarchive makes the account that answered the owner of the
      thread it names, whether or not the save succeeds; passing on any other answer leaves the owners alone. */
  lemma AnswersRecordOwners(s: State, n: nat, saved: bool)
    requires Enabled(s, Learn(n, saved)) && Lawful(s.requests[n])
    ensures var r, owners := s.requests[n], Next(s, Learn(n, saved)).owners;
      var thread, account := r.at.response.threadId, r.at.account;
      && (NamesThread(r.message.verb) && thread != "" && account != "" ==>
            thread in owners && owners[thread] == account
            && forall other :: other != thread ==> RouterResults.SameOwner(s.owners, owners, other))
      && (!NamesThread(r.message.verb) || thread == "" ==> owners == s.owners)
  {
    hide LawfulTrace;
  }

  /** Threads are sticky: in every run, once an answer naming a thread has been passed on, the account that gave it owns
      the thread until another request, a listing or a notification records an owner for it, and meanwhile an unscoped
      request about the thread is routed to that account. */
  lemma ThreadsAreSticky(start: State, before: seq<Action>, n: nat, saved: bool, actions: seq<Action>, m: Message)
    requires Initial(start) && Legal(start, before)
    requires var s := After(start, before);
      && Enabled(s, Learn(n, saved)) && NamesThread(s.requests[n].message.verb)
      && var w := s.requests[n].at;
         && w.response.threadId != "" && w.account != ""
         && Legal(Next(s, Learn(n, saved)), actions) && Untouched(Next(s, Learn(n, saved)), actions, w.response.threadId)
         && m.threadId == w.response.threadId && !ScopeApplies(m, After(Next(s, Learn(n, saved)), actions).accounts)
    ensures var s := After(start, before);
      var w, t := s.requests[n].at, After(Next(s, Learn(n, saved)), actions);
      && w.response.threadId in t.owners && t.owners[w.response.threadId] == w.account
      && RouteMessage(m, t.accounts, t.owners).1 ==
           if m.verb == "turn/start" then CheckingOwner(m.threadId, w.account) else Forwarding(w.account, {})
  {
    hide Initial, Legal, After, Untouched, ScopeApplies, Lawful;
    var s := After(start, before);
    ReachableLawful(start, before);
    assert Lawful(s.requests[n]);
    AnswersRecordOwners(s, n, saved);
    UntouchedRun(Next(s, Learn(n, saved)), actions, s.requests[n].at.response.threadId);
  }
}
