/** What the router promises over whole runs. */
module RouterResults {
  import opened Accounts
  import opened Collections
  import opened Protocol
  import opened Router
  import Quota
  import Store

  lemma {:induction false} RunKeepsInv(s: State, actions: seq<Action>)
    requires Inv(s) && Legal(s, actions)
    ensures Inv(After(s, actions))
    decreases |actions|
  {
    hide Inv, Next, Enabled;
    if actions != [] {
      NextKeepsInv(s, actions[0]);
      RunKeepsInv(Next(s, actions[0]), actions[1..]);
    }
  }

  lemma ReachableInv(s: State, actions: seq<Action>)
    requires Initial(s) && Legal(s, actions)
    ensures Inv(After(s, actions))
  {
    hide After, Legal, Ids;
    assert s.routes.Keys == {};
    RunKeepsInv(s, actions);
  }

  // ---- Answers ----

  /** In every run, key by key, the answers written, the routes stored and the goroutines that still owe
      an answer add up to the requests accepted; no answer is lost and none is written twice. */
  lemma AnswersConserved(s: State, actions: seq<Action>)
    requires Initial(s) && Legal(s, actions)
    ensures var t := After(s, actions);
      && AnswerKeys(t.output) + multiset(t.routes.Keys) + HeldKeys(t.requests) == RequestKeys(t.requests)
      && AnswerKeys(t.output) <= RequestKeys(t.requests)
  {
    hide After, Legal, Initial;
    ReachableInv(s, actions);
  }

  /** Each single request is answered at most once, and is answered exactly when nothing is left to do for it. */
  lemma AnsweredOnce(s: State, actions: seq<Action>, n: nat)
    requires Initial(s) && Legal(s, actions) && n < |After(s, actions).requests|
    ensures var r := After(s, actions).requests[n];
      && Answers(r.trace) <= 1
      && (Answers(r.trace) == 1 <==> !Live(r))
      && (Live(r) <==> Held(r.at) || (KeyOf(r) in After(s, actions).routes && Backed(r.at)))
  {
    hide After, Legal, Initial, Answers, KeyOf, Tracked;
    ReachableInv(s, actions);
    RequestFacts(After(s, actions), n);
  }

  // ---- Failover ----

  lemma {:induction false} DistinctCount(s: seq<string>)
    requires Distinct(s)
    ensures |Elements(s)| == |s|
  {
    if s != [] {
      var init, last := s[..|s| - 1], s[|s| - 1];
      DistinctCount(init);
      assert Elements(s) == Elements(init) + {last};
      assert last !in Elements(init);
    }
  }

  /** One request reaches pairwise distinct accounts, so at most as many as there are. */
  lemma VisitsDistinct(s: State, actions: seq<Action>, n: nat)
    requires Initial(s) && Legal(s, actions) && n < |After(s, actions).requests|
    ensures var t := After(s, actions); var visits := Visits(t.requests[n].trace);
      && Distinct(visits)
      && Elements(visits) <= Ids(t.accounts)
      && |visits| <= |Ids(t.accounts)|
  {
    hide After, Legal, Initial, Visits, Disciplined, Answers, Tracked, Ids;
    ReachableInv(s, actions);
    RequestFacts(After(s, actions), n);
    var visits := Visits(After(s, actions).requests[n].trace);
    DistinctCount(visits);
    SubsetSize(Elements(visits), Ids(After(s, actions).accounts));
  }

  /** A request that was moved reaches an account only straight after that account was chosen outside the
      exclusions with capacity in the snapshots used, had resumed the thread, and was recorded as its owner. */
  lemma FailoverPrepared(s: State, actions: seq<Action>, n: nat, p: nat)
    requires Initial(s) && Legal(s, actions) && n < |After(s, actions).requests|
    requires var trace := After(s, actions).requests[n].trace;
      p < |trace| && trace[p].Delivered? && trace[p].excluded != {}
    ensures var r := After(s, actions).requests[n];
      && p >= 3
      && ChosenFor(r.trace[p - 3], r.trace[p].account, r.trace[p].excluded)
      && r.trace[p - 2] == Resumed(r.message.threadId, r.trace[p].account)
      && r.trace[p - 1] == Recorded(r.message.threadId, r.trace[p].account)
  {
    hide After, Legal, Initial, Visits, Answers, Tracked, Ids, ChosenFor;
    ReachableInv(s, actions);
    RequestFacts(After(s, actions), n);
  }

  /** The owner is on record when the step that says so completes. */
  lemma RecordedMeansOwner(s: State, n: nat, saved: bool)
    requires Enabled(s, Record(n, saved))
    ensures var w, s' := s.requests[n].at, Next(s, Record(n, saved));
      s'.requests[n].at.Forwarding? ==> w.thread in s'.owners && s'.owners[w.thread] == w.target
  {
  }

  /** Chosen again after a usage limit, recorded, and not yet delivered. */
  predicate Moved(r: Request) {
    (r.at.Forwarding? || r.at.Sending?) && r.at.excluded != {}
  }

  /** An unanswered request about `thread`, or one whose answer names it. */
  predicate Concerns(r: Request, thread: string) {
    Live(r) && (r.message.threadId == thread || (r.at.Learning? && r.at.response.threadId == thread))
  }

  predicate SameOwner(before: map<string, string>, after: map<string, string>, thread: string) {
    (thread in before <==> thread in after) && (thread in before ==> before[thread] == after[thread])
  }

  /** While request `n` is on its way to the new account, no other request concerns its thread and no other writer
      changes that thread's owner. */
  ghost predicate Undisturbed(s: State, a: Action, n: nat) {
    n < |s.requests| && Moved(s.requests[n]) ==>
      && (forall m :: 0 <= m < |s.requests| && m != n ==> !Concerns(s.requests[m], s.requests[n].message.threadId))
      && (a.Environment? ==> SameOwner(s.owners, a.owners, s.requests[n].message.threadId))
  }

  ghost predicate RunUndisturbed(s: State, actions: seq<Action>, n: nat)
    requires Legal(s, actions)
    decreases |actions|
  {
    actions == [] || (Undisturbed(s, actions[0], n) && RunUndisturbed(Next(s, actions[0]), actions[1..], n))
  }

  ghost predicate OwnerHeld(s: State, n: nat) {
    n < |s.requests| && Moved(s.requests[n]) ==>
      var thread := s.requests[n].message.threadId;
      thread in s.owners && s.owners[thread] == s.requests[n].at.account
  }

  lemma OtherOwnerStays(owners: map<string, string>, other: string, account: string, saved: bool, thread: string)
    requires other != thread
    ensures SameOwner(owners, SetOwner(owners, other, account, saved).0, thread)
  {
  }

  /** A step of another request leaves the owner of the moved one's thread alone. */
  lemma OthersKeepOwner(s: State, a: Action, n: nat)
    requires Inv(s) && Enabled(s, a) && Undisturbed(s, a, n)
    requires n < |s.requests| && Moved(s.requests[n]) && (Internal(a) ==> a.n != n)
    ensures SameOwner(s.owners, Next(s, a).owners, s.requests[n].message.threadId)
  {
    hide Inv, RequestIDKey, Traced, Quota.Choose, Quota.HasCapacity, RouteMessage, SetOwner, SameOwner;
    var thread := s.requests[n].message.threadId;
    assert SameOwner(s.owners, s.owners, thread) by { SameAsItself(s.owners, thread); }
    if a.Record? {
      assert !Concerns(s.requests[a.n], thread);
      RequestFacts(s, a.n);
      RecordingThread(s.requests[a.n], Ids(s.accounts));
      OtherOwnerStays(s.owners, s.requests[a.n].at.thread, s.requests[a.n].at.target, a.saved, thread);
    } else if a.Learn? {
      assert !Concerns(s.requests[a.n], thread);
      OtherOwnerStays(s.owners, s.requests[a.n].at.response.threadId, s.requests[a.n].at.account, a.saved, thread);
    }
  }

  lemma SameAsItself(owners: map<string, string>, thread: string)
    ensures SameOwner(owners, owners, thread)
  {
  }

  lemma RecordingThread(r: Request, accounts: set<string>)
    requires Traced(r, accounts)
    ensures r.at.Recording? ==> r.at.thread == r.message.threadId
  {
    hide Distinct, Disciplined, Visits, Answers, ChosenFor;
  }

  /** A request's own step makes it a moved one only by recording the new owner, or keeps it one. */
  lemma OwnStepHolds(s: State, a: Action, n: nat)
    requires Inv(s) && Enabled(s, a) && Internal(a) && a.n == n && OwnerHeld(s, n)
    ensures OwnerHeld(Next(s, a), n)
  {
    hide Inv, RequestIDKey, Traced, Quota.Choose, Quota.HasCapacity, RouteMessage, Learned, Ids;
    if a.Record? {
      RequestFacts(s, n);
      RecordingThread(s.requests[n], Ids(s.accounts));
      RecordedMeansOwner(s, n, a.saved);
    } else if a.RouteExisting? {
      RouteMessageFacts(s.requests[n].message, s.accounts, s.owners);
    }
  }

  lemma StepHoldsOwner(s: State, a: Action, n: nat)
    requires Inv(s) && Enabled(s, a) && Undisturbed(s, a, n) && OwnerHeld(s, n)
    ensures OwnerHeld(Next(s, a), n)
  {
    hide Inv, Undisturbed, Next, Enabled;
    if Internal(a) && a.n == n {
      OwnStepHolds(s, a, n);
    } else {
      OtherRequestStays(s, a, n);
      if n < |s.requests| && Moved(s.requests[n]) {
        OthersKeepOwner(s, a, n);
      }
    }
  }

  lemma OtherRequestStays(s: State, a: Action, n: nat)
    requires Enabled(s, a) && (Internal(a) ==> a.n != n)
    ensures n < |s.requests| ==> n < |Next(s, a).requests| && Next(s, a).requests[n] == s.requests[n]
    ensures |s.requests| <= n < |Next(s, a).requests| ==> !Moved(Next(s, a).requests[n])
  {
    if Internal(a) {
      hide Next, Enabled;
      StepMovesOne(s, a);
    }
  }

  lemma {:induction false} RunHoldsOwner(s: State, actions: seq<Action>, n: nat)
    requires Inv(s) && OwnerHeld(s, n) && Legal(s, actions) && RunUndisturbed(s, actions, n)
    ensures Inv(After(s, actions)) && OwnerHeld(After(s, actions), n)
    decreases |actions|
  {
    hide Inv, Next, Enabled, OwnerHeld, Undisturbed;
    if actions != [] {
      NextKeepsInv(s, actions[0]);
      StepHoldsOwner(s, actions[0], n);
      RunHoldsOwner(Next(s, actions[0]), actions[1..], n);
    }
  }

  /** With at most one request in flight on a thread and no other writer of its owner, a moved request reaches an account
      that is the recorded owner of the thread at the moment of delivery. */
  lemma DeliveredToOwner(s: State, actions: seq<Action>, n: nat)
    requires Initial(s) && Legal(s, actions) && RunUndisturbed(s, actions, n)
    requires Enabled(After(s, actions), Send(n, true)) && After(s, actions).requests[n].at.excluded != {}
    ensures var t := Next(After(s, actions), Send(n, true));
      var r := t.requests[n];
      && r.trace != [] && r.trace[|r.trace| - 1].Delivered?
      && r.message.threadId in t.owners && t.owners[r.message.threadId] == r.trace[|r.trace| - 1].account
  {
    hide Legal, After, Inv, RunUndisturbed;
    ReachableInv(s, actions);
    InitialSettled(s, n);
    RunHoldsOwner(s, actions, n);
  }

  lemma InitialSettled(s: State, n: nat)
    requires Initial(s)
    ensures Inv(s) && OwnerHeld(s, n)
  {
    assert Legal(s, []);
    ReachableInv(s, []);
  }

  /** Other writers of the owner map record known accounts too. */
  ghost predicate EnvironmentKnows(a: Action) {
    a.Environment? ==> Store.OwnersKnown(a.accounts, a.owners)
  }

  lemma StepKeepsOwnersKnown(s: State, a: Action)
    requires Inv(s) && Enabled(s, a) && EnvironmentKnows(a) && Store.OwnersKnown(s.accounts, s.owners)
    ensures Store.OwnersKnown(Next(s, a).accounts, Next(s, a).owners)
  {
    hide Inv, RequestIDKey, Traced, Ids, Quota.Choose, Quota.HasCapacity, RouteMessage;
    if a.Record? || a.Learn? {
      RequestFacts(s, a.n);
      RecordedAccountKnown(s.requests[a.n], Ids(s.accounts));
    }
  }

  lemma RecordedAccountKnown(r: Request, accounts: set<string>)
    requires Traced(r, accounts)
    ensures r.at.Recording? ==> r.at.target in accounts
    ensures r.at.Learning? ==> r.at.account in accounts
  {
    hide Distinct, Disciplined, Visits, Answers, ChosenFor;
  }

  /** In every run the router records only known accounts as owners. */
  lemma {:induction false} OwnersStayKnown(s: State, actions: seq<Action>)
    requires Inv(s) && Legal(s, actions) && Store.OwnersKnown(s.accounts, s.owners)
    requires forall i :: 0 <= i < |actions| ==> EnvironmentKnows(actions[i])
    ensures Store.OwnersKnown(After(s, actions).accounts, After(s, actions).owners)
    decreases |actions|
  {
    hide Inv, Next, Enabled, Store.OwnersKnown, EnvironmentKnows;
    if actions != [] {
      NextKeepsInv(s, actions[0]);
      StepKeepsOwnersKnown(s, actions[0]);
      OwnersStayKnown(Next(s, actions[0]), actions[1..]);
    }
  }

  // ---- Scoped plugin requests ----

  /** While owners are known accounts, routing refuses a request only when there is no account at all; every other
      request goes to a known account, an unscoped one about a recorded thread to that thread's owner, and any other
      unscoped one to a controller. */
  lemma RoutedToKnownAccount(m: Message, accounts: seq<Account>, owners: map<string, string>)
    requires Store.OwnersKnown(accounts, owners) && forall a :: a in accounts ==> a.id != ""
    ensures var to := RouteMessage(m, accounts, owners).1;
      && (to.Answering? <==> accounts == [])
      && (to.Forwarding? ==> to.account in Ids(accounts) && to.excluded == {})
      && (to.CheckingOwner? ==> to.owner in Ids(accounts) && m.verb == "turn/start")
      && (!ScopeApplies(m, accounts) && m.threadId != "" && m.threadId in owners ==>
            to == if m.verb == "turn/start" then CheckingOwner(m.threadId, owners[m.threadId])
                  else Forwarding(owners[m.threadId], {}))
      && ((!ScopeApplies(m, accounts) && (m.threadId == "" || m.threadId !in owners)
           && exists c :: c in accounts && c.controller) ==>
            exists c :: c in accounts && c.controller &&
              to == if m.verb == "turn/start" && m.threadId != "" then CheckingOwner(m.threadId, c.id)
                    else Forwarding(c.id, {}))
  {
    hide Controller, Find;
    if m.threadId in owners {
      var i :| 0 <= i < |accounts| && accounts[i].id == owners[m.threadId];
      assert accounts[i] in accounts;
    }
    if Controller(accounts).Some? {
      var i :| 0 <= i < |accounts| && accounts[i] == Controller(accounts).value;
    }
    if ScopeApplies(m, accounts) {
      var i :| 0 <= i < |accounts| && accounts[i] == Find(accounts, m.scope).value;
    }
  }

  /** A plugin request that names a known and enabled account goes there, without the name; the name of any other
      account, and any name on another method, is ignored. */
  lemma ScopedRequests(m: Message, accounts: seq<Account>, owners: map<string, string>)
    requires Store.DistinctIds(accounts)
    ensures var (sent, to) := RouteMessage(m, accounts, owners);
      if && m.verb in {"app/installed", "app/list", "app/read", "mcpServer/oauth/login", "mcpServerStatus/list"}
         && m.scope != "" && exists a :: a in accounts && a.id == m.scope && a.enabled
      then sent == m.(scope := "") && to == Forwarding(m.scope, {})
      else sent == m && to == RouteMessage(m.(scope := ""), accounts, owners).1
  {
    hide Find, Controller;
    if exists a :: a in accounts && a.id == m.scope && a.enabled {
      var a :| a in accounts && a.id == m.scope && a.enabled;
      var i :| 0 <= i < |accounts| && accounts[i] == a;
      FindDistinct(accounts, i);
    }
  }

  // ---- Termination ----

  ghost function Room(ids: set<string>, excluded: set<string>): nat {
    |ids - excluded|
  }

  /** How many more steps a request can take: failover rounds first, then the stage within a round. */
  ghost function Rank(w: Where, ids: set<string>): nat {
    match w
    case Routing => 16 * |ids| + 15
    case CheckingOwner(_, _) => 16 * |ids| + 14
    case ChoosingNew => 16 * |ids| + 13
    case FailingOver(_, _, excluded) => 16 * Room(ids, excluded) + 12
    case Resuming(_, _, _, excluded) => 16 * Room(ids, excluded) + 11
    case Recording(_, _, excluded) => 16 * Room(ids, excluded) + 10
    case Forwarding(_, excluded) => 16 * Room(ids, excluded) + 9
    case Sending(_, excluded) => 16 * Room(ids, excluded) + 8
    case AtChild(_, excluded) => 16 * Room(ids, excluded) + 7
    case Arriving(_, excluded, _) => 16 * Room(ids, excluded) + 6
    case Retrying(route, _) => 16 * Room(ids, route.excluded) + 4
    case Learning(_, _, _) => 4
    case Unrouting(_, _) => 3
    case Computing => 2
    case Answering(_, _) => 1
    case Done => 0
    case Lost => 0
  }

  ghost function TotalRank(rs: seq<Request>, ids: set<string>): nat {
    if rs == [] then 0 else TotalRank(rs[..|rs| - 1], ids) + Rank(rs[|rs| - 1].at, ids)
  }

  /** Steps of the router and its children, as opposed to new requests and account changes. */
  predicate Internal(a: Action) {
    !a.Accept? && !a.Environment?
  }

  function Subject(a: Action): nat
    requires Internal(a)
  {
    a.n
  }

  lemma {:induction false} TotalRankUpdate(rs: seq<Request>, n: nat, r: Request, ids: set<string>)
    requires n < |rs|
    ensures TotalRank(rs[n := r], ids) + Rank(rs[n].at, ids) == TotalRank(rs, ids) + Rank(r.at, ids)
  {
    hide Rank;
    var init := rs[..|rs| - 1];
    if n < |rs| - 1 {
      TotalRankUpdate(init, n, r, ids);
      assert rs[n := r][..|rs| - 1] == init[n := r];
    } else {
      assert rs[n := r][..|rs| - 1] == init;
    }
  }

  lemma RoomShrinks(ids: set<string>, excluded: set<string>, account: string)
    ensures Room(ids, excluded) <= |ids|
    ensures account in ids && account !in excluded ==> Room(ids, excluded + {account}) < Room(ids, excluded)
  {
    SubsetSize(ids - excluded, ids);
    if account in ids && account !in excluded {
      assert ids - (excluded + {account}) == (ids - excluded) - {account};
    }
  }

  lemma RoomOfNone(ids: set<string>)
    ensures Room(ids, {}) == |ids|
  {
    assert ids - {} == ids;
  }

  lemma StepMovesOne(s: State, a: Action)
    requires Enabled(s, a) && Internal(a)
    ensures var s', n := Next(s, a), Subject(a);
      && n < |s.requests| && |s'.requests| == |s.requests| && s'.requests == s.requests[n := s'.requests[n]]
      && s'.accounts == s.accounts
  {
    hide RequestIDKey, Quota.Choose, Quota.HasCapacity, RouteMessage, SetOwner, Learned;
  }

  lemma EarlyStepLowersRank(s: State, a: Action, ids: set<string>)
    requires Enabled(s, a) && (a.Compute? || a.RouteExisting? || a.CheckOwner? || a.ChooseNew? || a.ChooseFallback?)
    ensures Rank(Next(s, a).requests[a.n].at, ids) < Rank(s.requests[a.n].at, ids)
  {
    hide RequestIDKey, Room, Quota.Choose, Quota.HasCapacity, RouteMessage;
    RoomOfNone(ids);
    if a.RouteExisting? {
      RouteMessageFacts(s.requests[a.n].message, s.accounts, s.owners);
    } else if a.CheckOwner? {
      RoomShrinks(ids, {s.requests[a.n].at.owner}, "");
    }
  }

  lemma ResumeLowersRank(s: State, a: Action, ids: set<string>)
    requires Enabled(s, a) && a.Resume?
    ensures Rank(Next(s, a).requests[a.n].at, ids) < Rank(s.requests[a.n].at, ids)
  {
    hide Room;
  }

  lemma RecordLowersRank(s: State, a: Action, ids: set<string>)
    requires Enabled(s, a) && a.Record?
    ensures Rank(Next(s, a).requests[a.n].at, ids) < Rank(s.requests[a.n].at, ids)
  {
    hide Room, SetOwner;
  }

  lemma RegisterLowersRank(s: State, a: Action, ids: set<string>)
    requires Enabled(s, a) && a.Register?
    ensures Rank(Next(s, a).requests[a.n].at, ids) < Rank(s.requests[a.n].at, ids)
  {
    hide RequestIDKey, Room;
  }

  lemma SendLowersRank(s: State, a: Action, ids: set<string>)
    requires Enabled(s, a) && a.Send?
    ensures Rank(Next(s, a).requests[a.n].at, ids) < Rank(s.requests[a.n].at, ids)
  {
    hide Room;
  }

  lemma AnswerStepLowersRank(s: State, a: Action, ids: set<string>)
    requires Enabled(s, a) && (a.Unroute? || a.ChildAnswers? || a.Learn? || a.Write?)
    ensures Rank(Next(s, a).requests[a.n].at, ids) < Rank(s.requests[a.n].at, ids)
  {
    hide RequestIDKey, Room, Learned;
  }

  lemma ReceiveLowersRank(s: State, a: Action)
    requires Inv(s) && Enabled(s, a) && a.Receive?
    ensures Rank(Next(s, a).requests[a.n].at, Ids(s.accounts)) < Rank(s.requests[a.n].at, Ids(s.accounts))
  {
    hide Inv, RequestIDKey, Room, Ids, Traced;
    RequestFacts(s, a.n);
  }

  lemma RetryLowersRank(s: State, a: Action)
    requires Inv(s) && Enabled(s, a) && a.Retry?
    ensures Rank(Next(s, a).requests[a.n].at, Ids(s.accounts)) < Rank(s.requests[a.n].at, Ids(s.accounts))
  {
    hide Inv, RequestIDKey, Room, Ids, Traced;
    RequestFacts(s, a.n);
    var w, ids := s.requests[a.n].at, Ids(s.accounts);
    RetryingFacts(s.requests[a.n], ids);
    RoomShrinks(ids, w.route.excluded, w.account);
  }

  /** A step moves one request, and to a lower rank. */
  lemma StepLowersRank(s: State, a: Action)
    requires Inv(s) && Enabled(s, a) && Internal(a)
    ensures var s', n := Next(s, a), Subject(a);
      && n < |s.requests| && |s'.requests| == |s.requests| && s'.requests == s.requests[n := s'.requests[n]]
      && s'.accounts == s.accounts
      && Rank(s'.requests[n].at, Ids(s.accounts)) < Rank(s.requests[n].at, Ids(s.accounts))
  {
    hide Inv, Next, Enabled, Rank, Ids;
    StepMovesOne(s, a);
    if a.Receive? {
      ReceiveLowersRank(s, a);
    } else if a.Retry? {
      RetryLowersRank(s, a);
    } else if a.Compute? || a.RouteExisting? || a.CheckOwner? || a.ChooseNew? || a.ChooseFallback? {
      EarlyStepLowersRank(s, a, Ids(s.accounts));
    } else if a.Resume? {
      ResumeLowersRank(s, a, Ids(s.accounts));
    } else if a.Record? {
      RecordLowersRank(s, a, Ids(s.accounts));
    } else if a.Register? {
      RegisterLowersRank(s, a, Ids(s.accounts));
    } else if a.Send? {
      SendLowersRank(s, a, Ids(s.accounts));
    } else {
      AnswerStepLowersRank(s, a, Ids(s.accounts));
    }
  }

  lemma RetryingFacts(r: Request, accounts: set<string>)
    requires r.at.Retrying? && Traced(r, accounts)
    ensures r.at.account in accounts && r.at.account !in r.at.route.excluded
  {
    hide Distinct, Disciplined, Visits, Answers;
  }

  lemma StepLowersTotal(s: State, a: Action)
    requires Inv(s) && Enabled(s, a) && Internal(a)
    ensures var s' := Next(s, a);
      TotalRank(s'.requests, Ids(s'.accounts)) < TotalRank(s.requests, Ids(s.accounts))
  {
    hide Inv, Next, Enabled, Rank, Ids;
    StepLowersRank(s, a);
    TotalRankUpdate(s.requests, Subject(a), Next(s, a).requests[Subject(a)], Ids(s.accounts));
  }

  /** Without new requests or account changes every run is finite: no longer than the total rank. */
  lemma {:induction false} RunsTerminate(s: State, actions: seq<Action>)
    requires Inv(s) && Legal(s, actions)
    requires forall i :: 0 <= i < |actions| ==> Internal(actions[i])
    ensures |actions| <= TotalRank(s.requests, Ids(s.accounts))
    decreases |actions|
  {
    hide Inv, Next, Enabled, TotalRank, Ids;
    if actions != [] {
      StepLowersTotal(s, actions[0]);
      NextKeepsInv(s, actions[0]);
      RunsTerminate(Next(s, actions[0]), actions[1..]);
    }
  }

  /** The next step of a request that is not waiting for a child. */
  function NextStep(w: Where, n: nat): Action
    requires !w.AtChild? && !w.Done? && !w.Lost?
  {
    match w
    case Computing => Compute(n)
    case ChoosingNew => ChooseNew(n, [], map[], 0)
    case Routing => RouteExisting(n)
    case CheckingOwner(_, _) => CheckOwner(n, None)
    case FailingOver(_, _, _) => ChooseFallback(n, [], map[], 0)
    case Resuming(_, _, _, _) => Resume(n, false)
    case Recording(_, _, _) => Record(n, false)
    case Forwarding(_, _) => Register(n)
    case Sending(_, _) => Send(n, false)
    case Unrouting(_, _) => Unroute(n)
    case Arriving(_, _, _) => Receive(n)
    case Learning(_, _, _) => Learn(n, false)
    case Retrying(_, _) => Retry(n)
    case Answering(_, _) => Write(n)
  }

  /** A live request that is not waiting for a child always has a step of its own. */
  lemma StepAvailable(s: State, n: nat)
    requires Inv(s) && n < |s.requests| && Live(s.requests[n]) && !s.requests[n].at.AtChild?
    ensures !s.requests[n].at.Lost? && Enabled(s, NextStep(s.requests[n].at, n))
  {
    hide Inv, RequestIDKey, Traced;
    RequestFacts(s, n);
  }

  /** When the router has come to rest, every unanswered request is held by a child that has not replied. */
  lemma RestMeansWaiting(s: State)
    requires Inv(s)
    requires forall a :: Internal(a) && !a.ChildAnswers? ==> !Enabled(s, a)
    ensures forall n :: 0 <= n < |s.requests| && Live(s.requests[n]) ==> s.requests[n].at.AtChild?
  {
    hide Inv, Enabled;
    forall n | 0 <= n < |s.requests| && Live(s.requests[n]) ensures s.requests[n].at.AtChild? {
      if !s.requests[n].at.AtChild? {
        StepAvailable(s, n);
      }
    }
  }
}
