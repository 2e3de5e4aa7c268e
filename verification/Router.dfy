/** The request router of internal/mux/mux.go as a step system.

    Every section the source runs under one lock, and every call it makes to a child, is one step.
    A request's `at` says which goroutine holds it, with that goroutine's local data, or where its
    message is on the way to or from a child; steps of different requests interleave freely. */
module Router {
  import opened Accounts
  import opened Collections
  import opened Protocol
  import Quota

  /** A client request: its raw id, its method, and what threadIDFromParams and
      scopedPluginRequest read from its params ("" when absent). */
  datatype Message = Message(id: string, verb: string, threadId: string, scope: string)

  datatype Route = Route(accountID: string, verb: string, message: Message, excluded: set<string>)

  /** A child's answer: the echoed id, whether isUsageLimitResponse holds, and threadIDFromResult. */
  datatype Response = Response(id: string, usageLimit: bool, threadId: string)

  /** What the client is told: something the router put together, an error, or a child's own answer. */
  datatype Content = Composed | Refusal(code: int) | FromChild(response: Response)

  datatype Answer = Answer(key: string, content: Content)

  const NO_CONTROLLER := -32022
  const NEW_THREAD_NOT_SENT := -32021
  const NOT_SENT := -32023
  const ALL_DEPLETED := -32026
  const NOT_MOVED := -32027
  const OWNER_NOT_SAVED := -32028

  datatype Reason = NoAccount | NotResumed | NotRecorded | NoChild | NotSent

  /** What has happened to a request so far. */
  datatype Event =
    | Computed                                                         // answered by the router itself
    | Routed(account: string)                                          // scoped account, owner or controller
    | Checked(owner: string, snapshot: Option<Quota.Snapshot>)         // the owner's quota looked up for a turn
    | Chosen(account: string, excluded: set<string>, snapshots: seq<Quota.Snapshot>)
    | NoneLeft(excluded: set<string>, snapshots: seq<Quota.Snapshot>)  // no account to choose
    | Resumed(thread: string, account: string)
    | Recorded(thread: string, account: string)
    | Delivered(account: string, excluded: set<string>)
    | Limited(account: string, excluded: set<string>)                  // a turn hit the account's usage limit
    | Replied(account: string, response: Response)                     // any other answer of a child
    | Failed(reason: Reason)
    | Answered(content: Content)

  datatype Where =
    | Computing                                                        // initialize, thread/list, rateLimits/read
    | ChoosingNew                                                      // routeNewThread
    | Routing                                                          // routeExistingRequest
    | CheckingOwner(thread: string, owner: string)                     // routeTurnStart
    | FailingOver(thread: string, source: string, excluded: set<string>)
    | Resuming(thread: string, source: string, target: string, excluded: set<string>)
    | Recording(thread: string, target: string, excluded: set<string>)
    | Forwarding(account: string, excluded: set<string>)               // before the route is stored
    | Sending(account: string, excluded: set<string>)                  // route stored, before child.Send
    | Unrouting(account: string, excluded: set<string>)                // Send failed, route not yet deleted
    | AtChild(account: string, excluded: set<string>)
    | Arriving(account: string, excluded: set<string>, response: Response)
    | Learning(route: Route, account: string, response: Response)
    | Retrying(route: Route, account: string)                          // retryTurnAfterUsageLimit
    | Answering(id: string, content: Content)                          // about to write
    | Done
    | Lost                                                             // a child's answer found no route

  datatype Request = Request(message: Message, at: Where, trace: seq<Event>)

  datatype State = State(
    accounts: seq<Account>,
    children: set<string>,
    owners: map<string, string>,
    routes: map<string, Route>,
    requests: seq<Request>,
    output: seq<Answer>)           // the answers written to the client

  datatype Action =
    | Accept(m: Message)
    | Compute(n: nat)
    | RouteExisting(n: nat)
    | CheckOwner(n: nat, snapshot: Option<Quota.Snapshot>)
    | ChooseNew(n: nat, snapshots: seq<Quota.Snapshot>, credits: map<string, Quota.Credits>, now: int)
    | ChooseFallback(n: nat, snapshots: seq<Quota.Snapshot>, credits: map<string, Quota.Credits>, now: int)
    | Resume(n: nat, ok: bool)
    | Record(n: nat, saved: bool)
    | Register(n: nat)
    | Send(n: nat, ok: bool)
    | Unroute(n: nat)
    | ChildAnswers(n: nat, response: Response)
    | Receive(n: nat)
    | Learn(n: nat, saved: bool)
    | Retry(n: nat)
    | Write(n: nat)
    | Environment(accounts: seq<Account>, children: set<string>, owners: map<string, string>)

  // ---- Pure parts of the handlers ----

  const SCOPED_METHODS := {"app/installed", "app/list", "app/read", "mcpServer/oauth/login", "mcpServerStatus/list"}
  const OWNER_METHODS := {"thread/start", "thread/fork", "thread/resume", "thread/unarchive"}

  /** HandleClient, for a message that carries a method and an id. */
  function Dispatch(m: Message): Where {
    if m.verb == "initialize" || m.verb == "thread/list" || m.verb == "account/rateLimits/read" then Computing
    else if m.verb == "thread/start" then ChoosingNew
    else Routing
  }

  /** The account a scoped plugin request names, when it is known and enabled. */
  predicate ScopeApplies(m: Message, accounts: seq<Account>) {
    && m.verb in SCOPED_METHODS && m.scope != ""
    && Find(accounts, m.scope).Some? && Find(accounts, m.scope).value.enabled
  }

  /** The thread's recorded owner, else the controller; "" when there is neither. */
  function TargetAccount(m: Message, accounts: seq<Account>, owners: map<string, string>): string {
    var owner := if m.threadId != "" && m.threadId in owners then owners[m.threadId] else "";
    if owner != "" then owner
    else if Controller(accounts).Some? then Controller(accounts).value.id
    else ""
  }

  /** routeExistingRequest: the message to forward and where it goes next. */
  function RouteMessage(m: Message, accounts: seq<Account>, owners: map<string, string>): (Message, Where) {
    if ScopeApplies(m, accounts) then (m.(scope := ""), Forwarding(m.scope, {}))
    else
      var account := TargetAccount(m, accounts, owners);
      if account == "" then (m, Answering(m.id, Refusal(NO_CONTROLLER)))
      else if m.verb == "turn/start" && m.threadId != "" then (m, CheckingOwner(m.threadId, account))
      else (m, Forwarding(account, {}))
  }

  /** The error code of a request that could not be handed to its child. */
  function UnsentCode(verb: string): int {
    if verb == "thread/start" then NEW_THREAD_NOT_SENT else NOT_SENT
  }

  function Learned(owners: map<string, string>, route: Route, account: string, response: Response, saved: bool)
    : map<string, string>
  {
    if route.verb in OWNER_METHODS && response.threadId != ""
    then SetOwner(owners, response.threadId, account, saved).0
    else owners
  }

  // ---- Steps ----

  function Pending(s: State, n: nat): Where {
    if n < |s.requests| then s.requests[n].at else Done
  }

  function Move(s: State, n: nat, to: Where, events: seq<Event>): State
    requires n < |s.requests|
  {
    s.(requests := s.requests[n := s.requests[n].(at := to, trace := s.requests[n].trace + events)])
  }

  /** What routeExistingRequest decided; the quota check of a turn is yet to come. */
  function RouteEvents(to: Where): seq<Event> {
    if to.Forwarding? then [Routed(to.account)]
    else if to.Answering? then [Failed(NoAccount)]
    else []
  }

  predicate Live(r: Request) {
    !r.at.Done?
  }

  /** What the source assumes of its surroundings: the client never reuses an outstanding id, a child
      answers only what it received and echoes its id, accounts are never removed and children belong to accounts. */
  ghost predicate Enabled(s: State, a: Action) {
    match a
    case Accept(m) =>
      m.verb != "" && m.id != "" &&
      forall i :: 0 <= i < |s.requests| && Live(s.requests[i]) ==> RequestIDKey(s.requests[i].message.id) != RequestIDKey(m.id)
    case Compute(n) => Pending(s, n).Computing?
    case RouteExisting(n) => Pending(s, n).Routing?
    case CheckOwner(n, _) => Pending(s, n).CheckingOwner?
    case ChooseNew(n, _, _, _) => Pending(s, n).ChoosingNew?
    case ChooseFallback(n, _, _, _) => Pending(s, n).FailingOver?
    case Resume(n, _) => Pending(s, n).Resuming?
    case Record(n, _) => Pending(s, n).Recording?
    case Register(n) => Pending(s, n).Forwarding?
    case Send(n, _) => Pending(s, n).Sending?
    case Unroute(n) => Pending(s, n).Unrouting?
    case ChildAnswers(n, response) =>
      Pending(s, n).AtChild? && RequestIDKey(response.id) == RequestIDKey(s.requests[n].message.id)
    case Receive(n) => Pending(s, n).Arriving?
    case Learn(n, _) => Pending(s, n).Learning?
    case Retry(n) => Pending(s, n).Retrying?
    case Write(n) => Pending(s, n).Answering?
    case Environment(accounts, children, _) =>
      Ids(s.accounts) <= Ids(accounts) && s.children <= children <= Ids(accounts)
  }

  function Next(s: State, a: Action): State
    requires Enabled(s, a)
  {
    match a
    case Accept(m) =>
      s.(requests := s.requests + [Request(m, Dispatch(m), [])])
    case Compute(n) =>
      Move(s, n, Answering(s.requests[n].message.id, Composed), [Computed])
    case RouteExisting(n) =>
      var (message, to) := RouteMessage(s.requests[n].message, s.accounts, s.owners);
      Move(s.(requests := s.requests[n := s.requests[n].(message := message)]), n, to, RouteEvents(to))
    case CheckOwner(n, snapshot) =>
      var w := s.requests[n].at;
      if snapshot.None? || Quota.HasCapacity(snapshot.value)
      then Move(s, n, Forwarding(w.owner, {}), [Checked(w.owner, snapshot)])
      else Move(s, n, FailingOver(w.thread, w.owner, {w.owner}), [Checked(w.owner, snapshot)])
    case ChooseNew(n, snapshots, credits, now) =>
      var choice := Quota.Choose(snapshots, {}, s.accounts, credits, now);
      if choice.None?
      then Move(s, n, Answering(s.requests[n].message.id, Refusal(ALL_DEPLETED)), [NoneLeft({}, snapshots)])
      else Move(s, n, Forwarding(choice.value.id, {}), [Chosen(choice.value.id, {}, snapshots)])
    case ChooseFallback(n, snapshots, credits, now) =>
      var w := s.requests[n].at;
      var choice := Quota.Choose(snapshots, w.excluded, s.accounts, credits, now);
      if choice.None?
      then Move(s, n, Answering(s.requests[n].message.id, Refusal(ALL_DEPLETED)), [NoneLeft(w.excluded, snapshots)])
      else Move(s, n, Resuming(w.thread, w.source, choice.value.id, w.excluded),
                [Chosen(choice.value.id, w.excluded, snapshots)])
    case Resume(n, ok) =>
      var w := s.requests[n].at;
      if w.source !in s.children || w.target !in s.children || !ok
      then Move(s, n, Answering(s.requests[n].message.id, Refusal(NOT_MOVED)), [Failed(NotResumed)])
      else Move(s, n, Recording(w.thread, w.target, w.excluded), [Resumed(w.thread, w.target)])
    case Record(n, saved) =>
      var w := s.requests[n].at;
      var (owners, ok) := SetOwner(s.owners, w.thread, w.target, saved);
      if !ok
      then Move(s.(owners := owners), n, Answering(s.requests[n].message.id, Refusal(OWNER_NOT_SAVED)), [Failed(NotRecorded)])
      else Move(s.(owners := owners), n, Forwarding(w.target, w.excluded), [Recorded(w.thread, w.target)])
    case Register(n) =>
      var r := s.requests[n];
      if r.at.account !in s.children
      then Move(s, n, Answering(r.message.id, Refusal(UnsentCode(r.message.verb))), [Failed(NoChild)])
      else
        var route := Route(r.at.account, r.message.verb, r.message, r.at.excluded);
        Move(s.(routes := s.routes[RequestIDKey(r.message.id) := route]), n, Sending(r.at.account, r.at.excluded), [])
    case Send(n, ok) =>
      var w := s.requests[n].at;
      if ok then Move(s, n, AtChild(w.account, w.excluded), [Delivered(w.account, w.excluded)])
      else Move(s, n, Unrouting(w.account, w.excluded), [Failed(NotSent)])
    case Unroute(n) =>
      var r := s.requests[n];
      Move(s.(routes := s.routes - {RequestIDKey(r.message.id)}), n,
           Answering(r.message.id, Refusal(UnsentCode(r.message.verb))), [])
    case ChildAnswers(n, response) =>
      var w := s.requests[n].at;
      Move(s, n, Arriving(w.account, w.excluded, response), [])
    case Receive(n) =>
      var w := s.requests[n].at;
      var key := RequestIDKey(w.response.id);
      if key !in s.routes then Move(s, n, Lost, [])
      else
        var route, rest := s.routes[key], s.(routes := s.routes - {key});
        if route.verb == "turn/start" && w.response.usageLimit
        then Move(rest, n, Retrying(route, w.account), [Limited(w.account, route.excluded)])
        else Move(rest, n, Learning(route, w.account, w.response), [Replied(w.account, w.response)])
    case Learn(n, saved) =>
      var w := s.requests[n].at;
      Move(s.(owners := Learned(s.owners, w.route, w.account, w.response, saved)), n,
           Answering(w.response.id, FromChild(w.response)), [])
    case Retry(n) =>
      var w := s.requests[n].at;
      var m := w.route.message;
      if m.threadId == "" then Move(s, n, Answering(m.id, Refusal(ALL_DEPLETED)), [])
      else Move(s.(requests := s.requests[n := s.requests[n].(message := m)]), n,
                FailingOver(m.threadId, w.account, w.route.excluded + {w.account}), [])
    case Write(n) =>
      var w := s.requests[n].at;
      Move(s.(output := s.output + [Answer(RequestIDKey(w.id), w.content)]), n, Done, [Answered(w.content)])
    case Environment(accounts, children, owners) =>
      s.(accounts := accounts, children := children, owners := owners)
  }

  // ---- Runs ----

  ghost predicate Initial(s: State) {
    s.requests == [] && s.routes == map[] && s.output == [] && s.children <= Ids(s.accounts)
  }

  ghost predicate Legal(s: State, actions: seq<Action>)
    decreases |actions|
  {
    actions == [] || (Enabled(s, actions[0]) && Legal(Next(s, actions[0]), actions[1..]))
  }

  ghost function After(s: State, actions: seq<Action>): State
    requires Legal(s, actions)
    decreases |actions|
  {
    if actions == [] then s else After(Next(s, actions[0]), actions[1..])
  }

  // ---- What a request has been through ----

  function Visits(trace: seq<Event>): seq<string> {
    if trace == [] then []
    else
      var last := trace[|trace| - 1];
      Visits(trace[..|trace| - 1]) + (if last.Delivered? then [last.account] else [])
  }

  function Answers(trace: seq<Event>): nat {
    if trace == [] then 0
    else Answers(trace[..|trace| - 1]) + (if trace[|trace| - 1].Answered? then 1 else 0)
  }

  function Elements(s: seq<string>): set<string> {
    set x | x in s
  }

  /** The last three events of `trace` prepare the move of `thread` to `account`: chosen outside
      `excluded` with capacity in the snapshots used, thread resumed there, account recorded as owner. */
  ghost predicate Prepared(trace: seq<Event>, thread: string, account: string, excluded: set<string>) {
    && |trace| >= 3
    && ChosenFor(trace[|trace| - 3], account, excluded)
    && trace[|trace| - 2] == Resumed(thread, account)
    && trace[|trace| - 1] == Recorded(thread, account)
  }

  ghost predicate ChosenFor(e: Event, account: string, excluded: set<string>) {
    && e.Chosen? && e.account == account && e.excluded == excluded && account !in excluded
    && exists s :: s in e.snapshots && s.id == account && Quota.HasCapacity(s)
  }

  /** Every delivery that followed an exclusion was prepared immediately before. */
  ghost predicate Disciplined(trace: seq<Event>, thread: string) {
    forall p :: 0 <= p < |trace| && trace[p].Delivered? && trace[p].excluded != {} ==>
      Prepared(trace[..p], thread, trace[p].account, trace[p].excluded)
  }

  // ---- The invariant ----

  /** The request's answer is owed by its entry in `externalRoutes`. */
  predicate Backed(w: Where) {
    w.Sending? || w.Unrouting? || w.AtChild? || w.Arriving?
  }

  /** The request's answer is owed by a goroutine. */
  predicate Held(w: Where) {
    !Backed(w) && !w.Done? && !w.Lost?
  }

  function KeyOf(r: Request): string {
    RequestIDKey(r.message.id)
  }

  function RouteOf(r: Request): Route
    requires Backed(r.at)
  {
    Route(r.at.account, r.message.verb, r.message, r.at.excluded)
  }

  /** The route table agrees with where the request is. */
  ghost predicate Located(r: Request, routes: map<string, Route>) {
    && !r.at.Lost?
    && (Backed(r.at) ==> KeyOf(r) in routes && routes[KeyOf(r)] == RouteOf(r))
    && (Held(r.at) ==> KeyOf(r) !in routes)
    && (r.at.Arriving? || r.at.Learning? ==> RequestIDKey(r.at.response.id) == KeyOf(r))
    && (r.at.Answering? ==> RequestIDKey(r.at.id) == KeyOf(r))
    && (r.at.Retrying? ==> r.at.route.message == r.message)
  }

  /** The accounts visited so far are those excluded, the current one aside. */
  ghost predicate Tracked(r: Request, accounts: set<string>) {
    var visited := Elements(Visits(r.trace));
    match r.at
    case Computing => visited == {}
    case ChoosingNew => visited == {}
    case Routing => visited == {}
    case CheckingOwner(thread, _) => visited == {} && thread == r.message.threadId
    case FailingOver(thread, _, excluded) => visited <= excluded && thread == r.message.threadId
    case Resuming(thread, _, target, excluded) =>
      && visited <= excluded && thread == r.message.threadId
      && r.trace != [] && ChosenFor(r.trace[|r.trace| - 1], target, excluded)
    case Recording(thread, target, excluded) =>
      && visited <= excluded && thread == r.message.threadId && target in accounts && |r.trace| >= 2
      && ChosenFor(r.trace[|r.trace| - 2], target, excluded)
      && r.trace[|r.trace| - 1] == Resumed(thread, target)
    case Forwarding(account, excluded) =>
      && visited <= excluded && account !in excluded
      && (excluded != {} ==> Prepared(r.trace, r.message.threadId, account, excluded))
    case Sending(account, excluded) =>
      && visited <= excluded && account !in excluded && account in accounts
      && (excluded != {} ==> Prepared(r.trace, r.message.threadId, account, excluded))
    case AtChild(account, excluded) => visited <= excluded + {account} && account !in excluded && account in accounts
    case Arriving(account, excluded, _) => visited <= excluded + {account} && account !in excluded && account in accounts
    case Learning(_, account, _) => account in accounts
    case Retrying(route, account) =>
      visited <= route.excluded + {account} && account !in route.excluded && account in accounts
    case _ => true
  }

  ghost predicate Traced(r: Request, accounts: set<string>) {
    && Distinct(Visits(r.trace))
    && Elements(Visits(r.trace)) <= accounts
    && Disciplined(r.trace, r.message.threadId)
    && Answers(r.trace) == (if r.at.Done? then 1 else 0)
    && Tracked(r, accounts)
  }

  ghost predicate Owed(s: State, key: string) {
    exists i :: 0 <= i < |s.requests| && Backed(s.requests[i].at) && KeyOf(s.requests[i]) == key
  }

  ghost predicate Inv(s: State) {
    && (forall i :: 0 <= i < |s.requests| ==> Located(s.requests[i], s.routes))
    && (forall i :: 0 <= i < |s.requests| ==> Traced(s.requests[i], Ids(s.accounts)))
    && (forall i, j :: 0 <= i < j < |s.requests| && Live(s.requests[i]) && Live(s.requests[j]) ==>
          KeyOf(s.requests[i]) != KeyOf(s.requests[j]))
    && (forall key :: key in s.routes ==> Owed(s, key))
    && s.children <= Ids(s.accounts)
    && Conserved(s)
  }

  // ---- Conservation of answers ----

  function Hold(r: Request): multiset<string> {
    if Held(r.at) then multiset{KeyOf(r)} else multiset{}
  }

  /** The keys whose answer a goroutine owes. */
  function HeldKeys(rs: seq<Request>): multiset<string> {
    if rs == [] then multiset{} else HeldKeys(rs[..|rs| - 1]) + Hold(rs[|rs| - 1])
  }

  function RequestKeys(rs: seq<Request>): multiset<string> {
    if rs == [] then multiset{} else RequestKeys(rs[..|rs| - 1]) + multiset{KeyOf(rs[|rs| - 1])}
  }

  function AnswerKeys(output: seq<Answer>): multiset<string> {
    if output == [] then multiset{} else AnswerKeys(output[..|output| - 1]) + multiset{output[|output| - 1].key}
  }

  /** Answers written, routes and goroutines together account for every request accepted, key by key. */
  ghost predicate Conserved(s: State) {
    AnswerKeys(s.output) + multiset(s.routes.Keys) + HeldKeys(s.requests) == RequestKeys(s.requests)
  }

  ghost function Balance(s: State, r: Request): multiset<string> {
    AnswerKeys(s.output) + multiset(s.routes.Keys) + Hold(r)
  }

  lemma {:induction false} HeldKeysUpdate(rs: seq<Request>, n: nat, r: Request)
    requires n < |rs|
    ensures HeldKeys(rs[n := r]) + Hold(rs[n]) == HeldKeys(rs) + Hold(r)
  {
    hide Hold;
    var init := rs[..|rs| - 1];
    if n < |rs| - 1 {
      HeldKeysUpdate(init, n, r);
      assert rs[n := r][..|rs| - 1] == init[n := r];
      assert HeldKeys(rs[n := r]) + Hold(rs[n]) == Hold(rs[|rs| - 1]) + (HeldKeys(init[n := r]) + Hold(rs[n]));
      assert HeldKeys(rs) + Hold(r) == Hold(rs[|rs| - 1]) + (HeldKeys(init) + Hold(r));
    } else {
      assert rs[n := r][..|rs| - 1] == init;
    }
  }

  lemma {:induction false} RequestKeysUpdate(rs: seq<Request>, n: nat, r: Request)
    requires n < |rs| && KeyOf(r) == KeyOf(rs[n])
    ensures RequestKeys(rs[n := r]) == RequestKeys(rs)
  {
    hide KeyOf;
    var init := rs[..|rs| - 1];
    if n < |rs| - 1 {
      RequestKeysUpdate(init, n, r);
      assert rs[n := r][..|rs| - 1] == init[n := r];
    } else {
      assert rs[n := r][..|rs| - 1] == init;
    }
  }

  // ---- One request moves, the others stay ----

  /** `s'` differs from `s` at request `n`, at its own key in the route table, and in the answers written. */
  ghost predicate OnlyMoves(s: State, s': State, n: nat) {
    && n < |s.requests| && |s'.requests| == |s.requests|
    && s'.requests == s.requests[n := s'.requests[n]]
    && s'.requests[n].message.id == s.requests[n].message.id
    && s'.accounts == s.accounts && s'.children == s.children
    && (forall key :: key != KeyOf(s.requests[n]) ==>
          (key in s'.routes <==> key in s.routes) && (key in s.routes ==> s'.routes[key] == s.routes[key]))
  }

  lemma MoveConserves(s: State, s': State, n: nat)
    requires OnlyMoves(s, s', n) && Conserved(s)
    requires Balance(s', s'.requests[n]) == Balance(s, s.requests[n])
    ensures Conserved(s')
  {
    hide Hold;
    HeldKeysUpdate(s.requests, n, s'.requests[n]);
    RequestKeysUpdate(s.requests, n, s'.requests[n]);
    BalanceShift(AnswerKeys(s.output) + multiset(s.routes.Keys), AnswerKeys(s'.output) + multiset(s'.routes.Keys),
                 HeldKeys(s.requests), HeldKeys(s'.requests), Hold(s.requests[n]), Hold(s'.requests[n]));
  }

  lemma BalanceShift<T>(x: multiset<T>, x': multiset<T>, h: multiset<T>, h': multiset<T>, a: multiset<T>, b: multiset<T>)
    requires x' + b == x + a && h' + a == h + b
    ensures x' + h' == x + h
  {
    forall k ensures (x' + h')[k] == (x + h)[k] {
      assert (x' + b)[k] == (x + a)[k] && (h' + a)[k] == (h + b)[k];
    }
  }

  lemma MoveOwed(s: State, s': State, n: nat)
    requires OnlyMoves(s, s', n)
    requires Live(s.requests[n])
    requires Backed(s'.requests[n].at) <==> KeyOf(s.requests[n]) in s'.routes
    requires forall key :: key in s.routes ==> Owed(s, key)
    ensures forall key :: key in s'.routes ==> Owed(s', key)
  {
    hide Backed, RequestIDKey;
    forall key | key in s'.routes ensures Owed(s', key) {
      if key == KeyOf(s.requests[n]) {
        assert KeyOf(s'.requests[n]) == key;
      } else {
        assert Owed(s, key);
        var i :| 0 <= i < |s.requests| && Backed(s.requests[i].at) && KeyOf(s.requests[i]) == key;
        assert s'.requests[i] == s.requests[i];
      }
    }
  }

  /** What has to be checked of the request that moved for the invariant to be kept. */
  lemma MoveKeepsInv(s: State, s': State, n: nat)
    requires Inv(s) && OnlyMoves(s, s', n) && Live(s.requests[n])
    requires Located(s'.requests[n], s'.routes)
    requires Traced(s'.requests[n], Ids(s.accounts))
    requires Backed(s'.requests[n].at) <==> KeyOf(s.requests[n]) in s'.routes
    requires Balance(s', s'.requests[n]) == Balance(s, s.requests[n])
    ensures Inv(s')
  {
    hide Traced, Balance, Conserved, Owed, RequestIDKey;
    MoveConserves(s, s', n);
    MoveOwed(s, s', n);
    forall i | 0 <= i < |s'.requests| ensures Located(s'.requests[i], s'.routes) {
      if i != n {
        assert s'.requests[i] == s.requests[i];
        assert Live(s.requests[i]) ==> KeyOf(s.requests[i]) != KeyOf(s.requests[n]);
      }
    }
    forall i | 0 <= i < |s'.requests| ensures Traced(s'.requests[i], Ids(s'.accounts)) {
      assert i != n ==> s'.requests[i] == s.requests[i];
    }
    forall i, j | 0 <= i < j < |s'.requests| && Live(s'.requests[i]) && Live(s'.requests[j])
      ensures KeyOf(s'.requests[i]) != KeyOf(s'.requests[j])
    {
      assert i != n ==> s'.requests[i] == s.requests[i];
      assert j != n ==> s'.requests[j] == s.requests[j];
    }
  }

  lemma TraceSnoc(trace: seq<Event>, e: Event, thread: string)
    ensures Visits(trace + [e]) == if e.Delivered? then Visits(trace) + [e.account] else Visits(trace)
    ensures Answers(trace + [e]) == Answers(trace) + (if e.Answered? then 1 else 0)
    ensures Disciplined(trace, thread)
         && (e.Delivered? && e.excluded != {} ==> Prepared(trace, thread, e.account, e.excluded))
         ==> Disciplined(trace + [e], thread)
  {
    hide Prepared;
    assert (trace + [e])[..|trace|] == trace;
    if Disciplined(trace, thread) {
      forall p | 0 <= p < |trace| ensures (trace + [e])[..p] == trace[..p] && (trace + [e])[p] == trace[p] {
      }
    }
  }

  /** An event that is neither a delivery nor an answer changes neither count. */
  lemma QuietSnoc(trace: seq<Event>, e: Event, thread: string)
    requires !e.Delivered? && !e.Answered?
    ensures Visits(trace + [e]) == Visits(trace) && Answers(trace + [e]) == Answers(trace)
    ensures Disciplined(trace, thread) ==> Disciplined(trace + [e], thread)
  {
    hide Disciplined, Visits, Answers;
    TraceSnoc(trace, e, thread);
  }

  /** A step in which a goroutine hands its request on without touching routes or output. */
  lemma HeldMoveKeepsInv(s: State, s': State, n: nat)
    requires Inv(s) && OnlyMoves(s, s', n) && Held(s.requests[n].at) && Held(s'.requests[n].at)
    requires s'.routes == s.routes && s'.output == s.output
    requires Located(s'.requests[n], s'.routes)
    requires Traced(s'.requests[n], Ids(s.accounts))
    ensures Inv(s')
  {
    hide Traced, Conserved, Owed, RequestIDKey;
    assert Located(s.requests[n], s.routes);
    MoveKeepsInv(s, s', n);
  }

  lemma RequestFacts(s: State, n: nat)
    requires Inv(s) && n < |s.requests|
    ensures Located(s.requests[n], s.routes) && Traced(s.requests[n], Ids(s.accounts))
    ensures s.children <= Ids(s.accounts)
  {
    hide Located, Traced;
  }

  /** A request that gives up, or has its answer ready, adds that to its history. */
  lemma GivenUpTraced(r: Request, e: Event, content: Content, accounts: set<string>)
    requires Traced(r, accounts) && !r.at.Done? && !e.Delivered? && !e.Answered?
    ensures Traced(r.(at := Answering(r.message.id, content), trace := r.trace + [e]), accounts)
  {
    hide Distinct, Disciplined, Visits, Answers;
    QuietSnoc(r.trace, e, r.message.threadId);
  }

  lemma ComputeKeepsInv(s: State, a: Action)
    requires Inv(s) && Enabled(s, a) && a.Compute?
    ensures Inv(Next(s, a))
  {
    hide Inv, RequestIDKey, Traced, Conserved, Owed, Ids;
    var r := s.requests[a.n];
    RequestFacts(s, a.n);
    GivenUpTraced(r, Computed, Composed, Ids(s.accounts));
    HeldMoveKeepsInv(s, Next(s, a), a.n);
  }

  lemma RouteMessageFacts(m: Message, accounts: seq<Account>, owners: map<string, string>)
    ensures var (message, to) := RouteMessage(m, accounts, owners);
      && message.id == m.id && message.threadId == m.threadId && message.verb == m.verb
      && (|| (to.Forwarding? && to.excluded == {} && !(m.verb == "turn/start" && m.threadId != ""))
          || to == Answering(m.id, Refusal(NO_CONTROLLER))
          || (to.CheckingOwner? && to.thread == m.threadId && m.verb == "turn/start" && m.threadId != ""))
  {
    hide Controller, Find;
  }

  /** The routing step moves one request and adds at most its decision to the history. */
  lemma RouteExistingMoves(s: State, n: nat)
    requires Enabled(s, RouteExisting(n))
    ensures var (message, to) := RouteMessage(s.requests[n].message, s.accounts, s.owners);
      Next(s, RouteExisting(n)) ==
        s.(requests := s.requests[n := Request(message, to, s.requests[n].trace + RouteEvents(to))])
  {
    hide RouteMessage, RouteEvents;
  }

  lemma RouteTraced(r: Request, message: Message, to: Where, accounts: set<string>)
    requires Traced(r, accounts) && r.at.Routing? && message.threadId == r.message.threadId
    requires (to.Forwarding? && to.excluded == {}) || to.Answering? || (to.CheckingOwner? && to.thread == message.threadId)
    ensures Traced(Request(message, to, r.trace + RouteEvents(to)), accounts)
  {
    hide Distinct, Disciplined, Visits, Answers;
    if to.CheckingOwner? {
      assert r.trace + [] == r.trace;
    } else {
      QuietSnoc(r.trace, RouteEvents(to)[0], r.message.threadId);
    }
  }

  lemma RouteExistingKeepsInv(s: State, a: Action)
    requires Inv(s) && Enabled(s, a) && a.RouteExisting?
    ensures Inv(Next(s, a))
  {
    hide Inv, RequestIDKey, Traced, Conserved, Owed, Ids, RouteMessage, RouteEvents;
    var r := s.requests[a.n];
    RequestFacts(s, a.n);
    RouteMessageFacts(r.message, s.accounts, s.owners);
    var (message, to) := RouteMessage(r.message, s.accounts, s.owners);
    RouteTraced(r, message, to, Ids(s.accounts));
    HeldMoveKeepsInv(s, Next(s, a), a.n);
  }

  lemma CheckedTraced(r: Request, snapshot: Option<Quota.Snapshot>, accounts: set<string>)
    requires Traced(r, accounts) && r.at.CheckingOwner?
    ensures var trace := r.trace + [Checked(r.at.owner, snapshot)];
      && Traced(r.(at := Forwarding(r.at.owner, {}), trace := trace), accounts)
      && Traced(r.(at := FailingOver(r.at.thread, r.at.owner, {r.at.owner}), trace := trace), accounts)
  {
    hide Distinct, Disciplined, Visits, Answers;
    QuietSnoc(r.trace, Checked(r.at.owner, snapshot), r.message.threadId);
  }

  lemma CheckOwnerKeepsInv(s: State, a: Action)
    requires Inv(s) && Enabled(s, a) && a.CheckOwner?
    ensures Inv(Next(s, a))
  {
    hide Inv, RequestIDKey, Traced, Conserved, Owed, Ids, Quota.HasCapacity;
    var r := s.requests[a.n];
    RequestFacts(s, a.n);
    CheckedTraced(r, a.snapshot, Ids(s.accounts));
    HeldMoveKeepsInv(s, Next(s, a), a.n);
  }

  lemma ChosenTraced(r: Request, account: string, snapshots: seq<Quota.Snapshot>, accounts: set<string>)
    requires Traced(r, accounts) && r.at.ChoosingNew?
    ensures Traced(r.(at := Forwarding(account, {}), trace := r.trace + [Chosen(account, {}, snapshots)]), accounts)
  {
    hide Distinct, Disciplined, Visits, Answers;
    QuietSnoc(r.trace, Chosen(account, {}, snapshots), r.message.threadId);
  }

  lemma ChooseNewKeepsInv(s: State, a: Action)
    requires Inv(s) && Enabled(s, a) && a.ChooseNew?
    ensures Inv(Next(s, a))
  {
    hide Inv, RequestIDKey, Traced, Conserved, Owed, Ids, Quota.Choose;
    var r := s.requests[a.n];
    RequestFacts(s, a.n);
    var choice := Quota.Choose(a.snapshots, {}, s.accounts, a.credits, a.now);
    if choice.Some? {
      ChosenTraced(r, choice.value.id, a.snapshots, Ids(s.accounts));
    } else {
      GivenUpTraced(r, NoneLeft({}, a.snapshots), Refusal(ALL_DEPLETED), Ids(s.accounts));
    }
    HeldMoveKeepsInv(s, Next(s, a), a.n);
  }

  lemma FallbackTraced(r: Request, chosen: Event, account: string, accounts: set<string>)
    requires Traced(r, accounts) && r.at.FailingOver? && ChosenFor(chosen, account, r.at.excluded)
    ensures Traced(r.(at := Resuming(r.at.thread, r.at.source, account, r.at.excluded), trace := r.trace + [chosen]), accounts)
  {
    hide Distinct, Disciplined, Visits, Answers;
    TraceSnoc(r.trace, chosen, r.message.threadId);
  }

  lemma ChooseFallbackKeepsInv(s: State, a: Action)
    requires Inv(s) && Enabled(s, a) && a.ChooseFallback?
    ensures Inv(Next(s, a))
  {
    hide Inv, RequestIDKey, Conserved, Owed, Ids, Traced, Quota.Choose, Quota.HasCapacity;
    var r := s.requests[a.n];
    RequestFacts(s, a.n);
    var choice := Quota.Choose(a.snapshots, r.at.excluded, s.accounts, a.credits, a.now);
    if choice.Some? {
      Quota.ChosenHasCapacity(a.snapshots, r.at.excluded, s.accounts, a.credits, a.now);
      FallbackTraced(r, Chosen(choice.value.id, r.at.excluded, a.snapshots), choice.value.id, Ids(s.accounts));
    } else {
      GivenUpTraced(r, NoneLeft(r.at.excluded, a.snapshots), Refusal(ALL_DEPLETED), Ids(s.accounts));
    }
    HeldMoveKeepsInv(s, Next(s, a), a.n);
  }

  lemma ResumeTraced(r: Request, accounts: set<string>)
    requires Traced(r, accounts) && r.at.Resuming? && r.at.target in accounts
    ensures Traced(r.(at := Recording(r.at.thread, r.at.target, r.at.excluded),
                      trace := r.trace + [Resumed(r.at.thread, r.at.target)]), accounts)
  {
    hide Distinct, Disciplined, Visits, Answers, ChosenFor;
    TraceSnoc(r.trace, Resumed(r.at.thread, r.at.target), r.message.threadId);
  }

  lemma ResumeKeepsInv(s: State, a: Action)
    requires Inv(s) && Enabled(s, a) && a.Resume?
    ensures Inv(Next(s, a))
  {
    hide Inv, RequestIDKey, Conserved, Owed, Ids, Traced;
    var r := s.requests[a.n];
    RequestFacts(s, a.n);
    GivenUpTraced(r, Failed(NotResumed), Refusal(NOT_MOVED), Ids(s.accounts));
    if r.at.target in s.children {
      ResumeTraced(r, Ids(s.accounts));
    }
    HeldMoveKeepsInv(s, Next(s, a), a.n);
  }

  lemma RecordTraced(r: Request, accounts: set<string>)
    requires Traced(r, accounts) && r.at.Recording?
    ensures Traced(r.(at := Forwarding(r.at.target, r.at.excluded),
                      trace := r.trace + [Recorded(r.at.thread, r.at.target)]), accounts)
  {
    hide Distinct, Disciplined, Visits, Answers;
    TraceSnoc(r.trace, Recorded(r.at.thread, r.at.target), r.message.threadId);
  }

  lemma RecordKeepsInv(s: State, a: Action)
    requires Inv(s) && Enabled(s, a) && a.Record?
    ensures Inv(Next(s, a))
  {
    hide Inv, RequestIDKey, Conserved, Owed, Ids, Traced, SetOwner;
    var r := s.requests[a.n];
    RequestFacts(s, a.n);
    RecordTraced(r, Ids(s.accounts));
    GivenUpTraced(r, Failed(NotRecorded), Refusal(OWNER_NOT_SAVED), Ids(s.accounts));
    HeldMoveKeepsInv(s, Next(s, a), a.n);
  }

  lemma LearnKeepsInv(s: State, a: Action)
    requires Inv(s) && Enabled(s, a) && a.Learn?
    ensures Inv(Next(s, a))
  {
    hide Inv, RequestIDKey, Distinct, Disciplined, Conserved, Owed, Ids, Visits, Answers, Learned;
    var r := s.requests[a.n];
    RequestFacts(s, a.n);
    assert r.trace + [] == r.trace;
    HeldMoveKeepsInv(s, Next(s, a), a.n);
  }

  lemma RetryTraced(r: Request, accounts: set<string>)
    requires Traced(r, accounts) && r.at.Retrying?
    ensures var w := r.at;
      Traced(r.(at := FailingOver(r.message.threadId, w.account, w.route.excluded + {w.account})), accounts)
    ensures Traced(r.(at := Answering(r.message.id, Refusal(ALL_DEPLETED))), accounts)
  {
    hide Distinct, Disciplined, Visits, Answers;
  }

  lemma RetryKeepsInv(s: State, a: Action)
    requires Inv(s) && Enabled(s, a) && a.Retry?
    ensures Inv(Next(s, a))
  {
    hide Inv, RequestIDKey, Conserved, Owed, Ids, Traced;
    var r := s.requests[a.n];
    RequestFacts(s, a.n);
    assert r.trace + [] == r.trace;
    RetryTraced(r, Ids(s.accounts));
    HeldMoveKeepsInv(s, Next(s, a), a.n);
  }

  lemma KeysAdded<T>(m: map<string, T>, key: string, v: T)
    requires key !in m
    ensures multiset(m[key := v].Keys) == multiset(m.Keys) + multiset{key}
  {
    assert m[key := v].Keys == m.Keys + {key};
  }

  lemma KeysRemoved<T>(m: map<string, T>, key: string)
    requires key in m
    ensures multiset(m.Keys) == multiset((m - {key}).Keys) + multiset{key}
  {
    assert (m - {key}).Keys == m.Keys - {key};
  }

  lemma RegisterTraced(r: Request, accounts: set<string>)
    requires r.at.Forwarding? && Traced(r, accounts) && r.at.account in accounts
    ensures Traced(Request(r.message, Sending(r.at.account, r.at.excluded), r.trace), accounts)
  {
    hide Distinct, Disciplined, Prepared, Visits, Answers, Elements;
  }

  lemma RegisterBalanced(s: State, r: Request, sent: Request, route: Route)
    requires Held(r.at) && Backed(sent.at) && KeyOf(sent) == KeyOf(r) && KeyOf(r) !in s.routes
    ensures Balance(s.(routes := s.routes[KeyOf(r) := route]), sent) == Balance(s, r)
  {
    hide KeyOf, Held, Backed;
    KeysAdded(s.routes, KeyOf(r), route);
    HeldOrBacked(sent);
  }

  lemma HeldOrBacked(r: Request)
    ensures Backed(r.at) ==> !Held(r.at) && Live(r)
    ensures Held(r.at) ==> Live(r)
  {
  }

  lemma RegisterKeepsInv(s: State, a: Action)
    requires Inv(s) && Enabled(s, a) && a.Register?
    ensures Inv(Next(s, a))
  {
    hide Inv, RequestIDKey, Distinct, Disciplined, Prepared, Visits, Answers, Elements, Conserved, Owed, Ids, Balance;
    var r := s.requests[a.n];
    RequestFacts(s, a.n);
    assert r.trace + [] == r.trace;
    if r.at.account !in s.children {
      GivenUpTraced(r, Failed(NoChild), Refusal(UnsentCode(r.message.verb)), Ids(s.accounts));
      HeldMoveKeepsInv(s, Next(s, a), a.n);
    } else {
      RegisterTraced(r, Ids(s.accounts));
      hide Traced;
      var route := Route(r.at.account, r.message.verb, r.message, r.at.excluded);
      var sent := Request(r.message, Sending(r.at.account, r.at.excluded), r.trace);
      var s' := s.(routes := s.routes[KeyOf(r) := route], requests := s.requests[a.n := sent]);
      assert Next(s, a) == s';
      RegisterBalanced(s, r, sent, route);
      assert Balance(s', sent) == Balance(s, r) by { BalanceIgnoresRequests(s.(routes := s'.routes), s', sent); }
      MoveKeepsInv(s, s', a.n);
    }
  }

  lemma BalanceIgnoresRequests(s: State, s': State, r: Request)
    requires s.routes == s'.routes && s.output == s'.output
    ensures Balance(s, r) == Balance(s', r)
  {
  }

  lemma VisitAdded(visits: seq<string>, account: string)
    requires Distinct(visits) && account !in Elements(visits)
    ensures Distinct(visits + [account]) && Elements(visits + [account]) == Elements(visits) + {account}
  {
    assert account !in visits;
  }

  lemma SendTraced(r: Request, accounts: set<string>)
    requires r.at.Sending? && Traced(r, accounts)
    ensures Traced(Request(r.message, AtChild(r.at.account, r.at.excluded),
                           r.trace + [Delivered(r.at.account, r.at.excluded)]), accounts)
    ensures Traced(Request(r.message, Unrouting(r.at.account, r.at.excluded), r.trace + [Failed(NotSent)]), accounts)
  {
    hide Distinct, Disciplined, Prepared, Visits, Answers, Elements;
    QuietSnoc(r.trace, Failed(NotSent), r.message.threadId);
    TraceSnoc(r.trace, Delivered(r.at.account, r.at.excluded), r.message.threadId);
    VisitAdded(Visits(r.trace), r.at.account);
  }

  lemma SendKeepsInv(s: State, a: Action)
    requires Inv(s) && Enabled(s, a) && a.Send?
    ensures Inv(Next(s, a))
  {
    hide Inv, RequestIDKey, Traced, Conserved, Owed;
    var r := s.requests[a.n];
    RequestFacts(s, a.n);
    SendTraced(r, Ids(s.accounts));
    MoveKeepsInv(s, Next(s, a), a.n);
  }

  lemma UnrouteKeepsInv(s: State, a: Action)
    requires Inv(s) && Enabled(s, a) && a.Unroute?
    ensures Inv(Next(s, a))
  {
    hide Inv, RequestIDKey, Distinct, Disciplined, Conserved, Owed, Ids, Visits, Answers;
    var r := s.requests[a.n];
    RequestFacts(s, a.n);
    assert r.trace + [] == r.trace;
    KeysRemoved(s.routes, KeyOf(r));
    MoveKeepsInv(s, Next(s, a), a.n);
  }

  lemma ChildAnswersKeepsInv(s: State, a: Action)
    requires Inv(s) && Enabled(s, a) && a.ChildAnswers?
    ensures Inv(Next(s, a))
  {
    hide Inv, RequestIDKey, Distinct, Disciplined, Conserved, Owed, Ids, Visits, Answers;
    var r := s.requests[a.n];
    RequestFacts(s, a.n);
    assert r.trace + [] == r.trace;
    MoveKeepsInv(s, Next(s, a), a.n);
  }

  lemma ReceiveTraced(r: Request, route: Route, accounts: set<string>)
    requires Traced(r, accounts) && r.at.Arriving? && route == RouteOf(r)
    ensures var w := r.at;
      && Traced(r.(at := Retrying(route, w.account), trace := r.trace + [Limited(w.account, route.excluded)]), accounts)
      && Traced(r.(at := Learning(route, w.account, w.response), trace := r.trace + [Replied(w.account, w.response)]), accounts)
  {
    hide Distinct, Disciplined, Visits, Answers;
    QuietSnoc(r.trace, Limited(r.at.account, route.excluded), r.message.threadId);
    QuietSnoc(r.trace, Replied(r.at.account, r.at.response), r.message.threadId);
  }

  lemma ReceiveKeepsInv(s: State, a: Action)
    requires Inv(s) && Enabled(s, a) && a.Receive?
    ensures Inv(Next(s, a))
  {
    hide Inv, RequestIDKey, Conserved, Owed, Ids, Traced;
    var r := s.requests[a.n];
    RequestFacts(s, a.n);
    ReceiveTraced(r, RouteOf(r), Ids(s.accounts));
    KeysRemoved(s.routes, KeyOf(r));
    MoveKeepsInv(s, Next(s, a), a.n);
  }

  lemma AnswerKeysSnoc(output: seq<Answer>, a: Answer)
    ensures AnswerKeys(output + [a]) == AnswerKeys(output) + multiset{a.key}
  {
    assert (output + [a])[..|output|] == output;
  }

  lemma WriteKeepsInv(s: State, a: Action)
    requires Inv(s) && Enabled(s, a) && a.Write?
    ensures Inv(Next(s, a))
  {
    hide Inv, RequestIDKey, Distinct, Disciplined, Conserved, Owed, Ids, Visits, Answers;
    var r := s.requests[a.n];
    RequestFacts(s, a.n);
    TraceSnoc(r.trace, Answered(r.at.content), r.message.threadId);
    AnswerKeysSnoc(s.output, Answer(KeyOf(r), r.at.content));
    MoveKeepsInv(s, Next(s, a), a.n);
  }

  lemma AcceptConserves(s: State, r: Request)
    requires Conserved(s) && Held(r.at)
    ensures Conserved(s.(requests := s.requests + [r]))
  {
    hide KeyOf, Held;
    assert (s.requests + [r])[..|s.requests|] == s.requests;
  }

  lemma AcceptKeepsInv(s: State, a: Action)
    requires Inv(s) && Enabled(s, a) && a.Accept?
    ensures Inv(Next(s, a))
  {
    hide RequestIDKey, Located, Traced, Conserved, Backed;
    var s' := Next(s, a);
    var r := Request(a.m, Dispatch(a.m), []);
    var last := |s.requests|;
    assert s'.requests[last] == r && forall i :: 0 <= i < last ==> s'.requests[i] == s.requests[i];
    assert KeyOf(r) !in s.routes by {
      if KeyOf(r) in s.routes {
        assert Owed(s, KeyOf(r));
        BackedLive();
      }
    }
    FreshLocated(r, s.routes);
    FreshTraced(r, Ids(s.accounts));
    AcceptConserves(s, r);
    forall key | key in s'.routes ensures Owed(s', key) {
      assert Owed(s, key);
      var i :| 0 <= i < |s.requests| && Backed(s.requests[i].at) && KeyOf(s.requests[i]) == key;
      assert s'.requests[i] == s.requests[i];
    }
  }

  lemma BackedLive()
    ensures forall w: Where :: Backed(w) ==> !w.Done?
  {
  }

  lemma FreshLocated(r: Request, routes: map<string, Route>)
    requires r.at == Dispatch(r.message) && KeyOf(r) !in routes
    ensures Located(r, routes) && Held(r.at)
  {
    hide RequestIDKey;
  }

  lemma FreshTraced(r: Request, accounts: set<string>)
    requires r.at == Dispatch(r.message) && r.trace == []
    ensures Traced(r, accounts)
  {
  }

  lemma TracedWithMore(r: Request, accounts: set<string>, more: set<string>)
    requires Traced(r, accounts) && accounts <= more
    ensures Traced(r, more)
  {
    hide Distinct, Disciplined, Visits, Answers, ChosenFor, Prepared;
  }

  lemma EnvironmentKeepsInv(s: State, a: Action)
    requires Inv(s) && Enabled(s, a) && a.Environment?
    ensures Inv(Next(s, a))
  {
    hide RequestIDKey, Located, Traced, Ids;
    var s' := Next(s, a);
    forall i | 0 <= i < |s'.requests| ensures Traced(s'.requests[i], Ids(s'.accounts)) {
      TracedWithMore(s.requests[i], Ids(s.accounts), Ids(s'.accounts));
    }
    forall key | key in s'.routes ensures Owed(s', key) {
      assert Owed(s, key);
    }
  }

  lemma NextKeepsInv(s: State, a: Action)
    requires Inv(s) && Enabled(s, a)
    ensures Inv(Next(s, a))
  {
    hide Inv, Next, Enabled;
    match a
    case Accept(_) => AcceptKeepsInv(s, a);
    case Compute(_) => ComputeKeepsInv(s, a);
    case RouteExisting(_) => RouteExistingKeepsInv(s, a);
    case CheckOwner(_, _) => CheckOwnerKeepsInv(s, a);
    case ChooseNew(_, _, _, _) => ChooseNewKeepsInv(s, a);
    case ChooseFallback(_, _, _, _) => ChooseFallbackKeepsInv(s, a);
    case Resume(_, _) => ResumeKeepsInv(s, a);
    case Record(_, _) => RecordKeepsInv(s, a);
    case Register(_) => RegisterKeepsInv(s, a);
    case Send(_, _) => SendKeepsInv(s, a);
    case Unroute(_) => UnrouteKeepsInv(s, a);
    case ChildAnswers(_, _) => ChildAnswersKeepsInv(s, a);
    case Receive(_) => ReceiveKeepsInv(s, a);
    case Learn(_, _) => LearnKeepsInv(s, a);
    case Retry(_) => RetryKeepsInv(s, a);
    case Write(_) => WriteKeepsInv(s, a);
    case Environment(_, _, _) => EnvironmentKeepsInv(s, a);
  }
}
