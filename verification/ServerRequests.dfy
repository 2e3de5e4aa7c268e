/** Requests that children send to the client: id translation in internal/mux/mux.go. */
module ServerRequests {
  import opened Protocol
  import opened Text

  const UINT64_RANGE := 0x1_0000_0000_0000_0000

  // ---- The rewritten id ----

  /** The id under which the sequence-th server request is shown to the client. */
  function ServerID(account: string, sequence: nat): string {
    StringID("codex-mux:" + account + ":" + Decimal(sequence))
  }

  /** The escaped prefix, a colon, the digits. */
  lemma ServerIDShape(account: string, sequence: nat)
    ensures ServerID(account, sequence) ==
            ("\"" + Escaped("codex-mux:" + account)) + ":" + (Decimal(sequence) + "\"")
  {
    hide EscapeChar, Escaped;
    var head := "codex-mux:" + account;
    assert "codex-mux:" + account + ":" + Decimal(sequence) == head + (":" + Decimal(sequence));
    EscapedConcat(head, ":" + Decimal(sequence));
    EscapedConcat(":", Decimal(sequence));
    EscapedDigits(Decimal(sequence));
    ColonPlain();
  }

  lemma ColonPlain()
    ensures Escaped(":") == ":"
  {
    assert ":"[1..] == "" && ":"[0] == ':';
    assert Escaped(":"[1..]) == "";
    assert EscapeChar(':') == ":";
  }

  /** What follows the last colon of a text is determined by the text. */
  lemma AfterLastColon(x: string, d: string, y: string, e: string)
    requires x + ":" + d == y + ":" + e
    requires ':' !in d && ':' !in e
    ensures d == e && x == y
  {
    var s, t := x + ":" + d, y + ":" + e;
    assert |s| == |x| + 1 + |d| && |t| == |y| + 1 + |e|;
    assert s[|x|] == ':' && t[|y|] == ':';
    assert |x| == |y|;
    assert x == s[..|x|] && y == t[..|y|];
    assert d == s[|x| + 1..] && e == t[|y| + 1..];
  }

  lemma DigitsHaveNoColon(sequence: nat)
    ensures ':' !in Decimal(sequence) + "\""
  {
  }

  /** Different sequence numbers give different ids, whichever accounts the requests came from. */
  lemma ServerIDInjective(a: string, m: nat, b: string, n: nat)
    requires ServerID(a, m) == ServerID(b, n)
    ensures m == n
  {
    hide Escaped, ServerID, Decimal;
    ServerIDShape(a, m);
    ServerIDShape(b, n);
    DigitsHaveNoColon(m);
    DigitsHaveNoColon(n);
    AfterLastColon("\"" + Escaped("codex-mux:" + a), Decimal(m) + "\"", "\"" + Escaped("codex-mux:" + b), Decimal(n) + "\"");
    assert Decimal(m) == (Decimal(m) + "\"")[..|Decimal(m)|];
    assert |Decimal(m)| == |Decimal(n)|;
    assert Decimal(n) == (Decimal(n) + "\"")[..|Decimal(n)|];
    DecimalInjective(m, n);
  }

  lemma ServerIDTrimmed(account: string, sequence: nat)
    ensures RequestIDKey(ServerID(account, sequence)) == ServerID(account, sequence)
  {
    StringIDKey("codex-mux:" + account + ":" + Decimal(sequence));
  }

  // ---- The step system ----

  datatype Origin = Origin(accountID: string, original: string)

  datatype Stage = Numbered | Stored | Shown

  /** The n-th server request; its sequence number is n + 1. */
  datatype ServerRequest = ServerRequest(origin: Origin, stage: Stage)

  /** A client reply that found its route: the id it carried, where it goes, and whether it was sent. */
  datatype Reply = Reply(key: string, to: Origin, sent: bool)

  datatype State = State(sequence: nat, routes: map<string, Origin>, requests: seq<ServerRequest>, replies: seq<Reply>)

  datatype Action =
    | Number(origin: Origin)          // serverSequence.Add(1)
    | Store(n: nat)                   // insert under serverMu
    | Show(n: nat)                    // write to the client
    | ClientReplies(id: string)       // look up and delete under serverMu
    | SendReply(i: nat, running: bool)  // child.Send, when the child exists

  function NewID(s: State, n: nat): string
    requires n < |s.requests|
  {
    ServerID(s.requests[n].origin.accountID, (n + 1) % UINT64_RANGE)
  }

  /** The only bound: fewer than 2^64 server requests, so the sequence number has not wrapped. */
  ghost predicate Enabled(s: State, a: Action) {
    match a
    case Number(_) => |s.requests| + 1 < UINT64_RANGE
    case Store(n) => n < |s.requests| && s.requests[n].stage.Numbered?
    case Show(n) => n < |s.requests| && s.requests[n].stage.Stored?
    case ClientReplies(_) => true
    case SendReply(i, _) => i < |s.replies| && !s.replies[i].sent
  }

  function Next(s: State, a: Action): State
    requires Enabled(s, a)
  {
    match a
    case Number(origin) =>
      s.(sequence := (s.sequence + 1) % UINT64_RANGE, requests := s.requests + [ServerRequest(origin, Numbered)])
    case Store(n) =>
      s.(routes := s.routes[RequestIDKey(NewID(s, n)) := s.requests[n].origin],
         requests := s.requests[n := s.requests[n].(stage := Stored)])
    case Show(n) =>
      s.(requests := s.requests[n := s.requests[n].(stage := Shown)])
    case ClientReplies(id) =>
      var key := RequestIDKey(id);
      if key !in s.routes then s
      else s.(routes := s.routes - {key}, replies := s.replies + [Reply(key, s.routes[key], false)])
    case SendReply(i, running) =>
      s.(replies := s.replies[i := s.replies[i].(sent := running)])
  }

  ghost predicate Initial(s: State) {
    s == State(0, map[], [], [])
  }

  ghost predicate Legal(s: State, actions: seq<Action>)
    decreases |actions|
  {
    actions == [] || (Enabled(s, actions[0]) && Legal(Next(s, actions[0]), actions[1..]))
  }

  ghost function After(s: State, actions: seq<Action>): State
    requires Legal(s, actions)
    decreases |actions|
  {
    if actions == [] then s else After(Next(s, actions[0]), actions[1..])
  }

  // ---- The invariant ----

  ghost predicate Issued(s: State, key: string, origin: Origin) {
    exists n :: 0 <= n < |s.requests| && !s.requests[n].stage.Numbered? && NewID(s, n) == key && s.requests[n].origin == origin
  }

  ghost predicate Inv(s: State) {
    && |s.requests| < UINT64_RANGE && s.sequence == |s.requests|
    && (forall key :: key in s.routes ==> Issued(s, key, s.routes[key]))
    && (forall i :: 0 <= i < |s.replies| ==> Issued(s, s.replies[i].key, s.replies[i].to))
    && (forall i :: 0 <= i < |s.replies| ==> s.replies[i].key !in s.routes)
    && (forall i, j :: 0 <= i < j < |s.replies| ==> s.replies[i].key != s.replies[j].key)
  }

  lemma NewIDsDistinct(s: State, m: nat, n: nat)
    requires |s.requests| < UINT64_RANGE && m < |s.requests| && n < |s.requests| && NewID(s, m) == NewID(s, n)
    ensures m == n
  {
    hide ServerID;
    ServerIDInjective(s.requests[m].origin.accountID, (m + 1) % UINT64_RANGE,
                      s.requests[n].origin.accountID, (n + 1) % UINT64_RANGE);
  }

  lemma IssuedPersists(s: State, s': State, key: string, origin: Origin)
    requires Issued(s, key, origin)
    requires |s.requests| <= |s'.requests|
    requires forall n :: 0 <= n < |s.requests| ==> s'.requests[n].origin == s.requests[n].origin
    requires forall n :: 0 <= n < |s.requests| && !s.requests[n].stage.Numbered? ==> !s'.requests[n].stage.Numbered?
    ensures Issued(s', key, origin)
  {
    hide ServerID;
    var n :| 0 <= n < |s.requests| && !s.requests[n].stage.Numbered? && NewID(s, n) == key && s.requests[n].origin == origin;
    assert NewID(s', n) == key;
  }

  /** Storing a route never overwrites one and never revives an answered id. */
  lemma StoredKeyFresh(s: State, n: nat, key: string, origin: Origin)
    requires Inv(s) && n < |s.requests| && s.requests[n].stage.Numbered? && Issued(s, key, origin)
    ensures key != NewID(s, n)
  {
    hide ServerID;
    var m :| 0 <= m < |s.requests| && !s.requests[m].stage.Numbered? && NewID(s, m) == key && s.requests[m].origin == origin;
    if key == NewID(s, n) {
      NewIDsDistinct(s, m, n);
    }
  }

  lemma NextKeepsInv(s: State, a: Action)
    requires Inv(s) && Enabled(s, a)
    ensures Inv(Next(s, a))
  {
    hide ServerID, RequestIDKey, Issued;
    var s' := Next(s, a);
    if a.Store? {
      ServerIDTrimmed(s.requests[a.n].origin.accountID, (a.n + 1) % UINT64_RANGE);
      IssuedHere(s', a.n);
      assert NewID(s', a.n) == NewID(s, a.n);
    }
    forall key | key in s'.routes ensures Issued(s', key, s'.routes[key]) {
      if key in s.routes && s.routes[key] == s'.routes[key] {
        IssuedPersists(s, s', key, s.routes[key]);
      }
    }
    forall i | 0 <= i < |s'.replies|
      ensures Issued(s', s'.replies[i].key, s'.replies[i].to) && s'.replies[i].key !in s'.routes
    {
      var reply := s'.replies[i];
      if i < |s.replies| {
        IssuedPersists(s, s', reply.key, reply.to);
        if a.Store? {
          StoredKeyFresh(s, a.n, reply.key, reply.to);
        }
      } else {
        IssuedPersists(s, s', reply.key, reply.to);
      }
    }
  }

  lemma IssuedHere(s: State, n: nat)
    requires n < |s.requests| && !s.requests[n].stage.Numbered?
    ensures Issued(s, NewID(s, n), s.requests[n].origin)
  {
  }

  lemma {:induction false} RunKeepsInv(s: State, actions: seq<Action>)
    requires Inv(s) && Legal(s, actions)
    ensures Inv(After(s, actions))
    decreases |actions|
  {
    hide Inv, Next, Enabled;
    if actions != [] {
      NextKeepsInv(s, actions[0]);
      RunKeepsInv(Next(s, actions[0]), actions[1..]);
    }
  }

  // ---- Main results ----

  /** No two server requests of a run are shown under the same id, even when children reuse ids. */
  lemma RewrittenIDsDistinct(s: State, actions: seq<Action>, m: nat, n: nat)
    requires Initial(s) && Legal(s, actions)
    requires m < n < |After(s, actions).requests|
    ensures NewID(After(s, actions), m) != NewID(After(s, actions), n)
  {
    hide NewID, Legal, After;
    RunKeepsInv(s, actions);
    if NewID(After(s, actions), m) == NewID(After(s, actions), n) {
      NewIDsDistinct(After(s, actions), m, n);
    }
  }

  /** `reply` carries the id of the n-th request, and goes to the child that sent it under its own id. */
  ghost predicate Matches(s: State, reply: Reply, n: int) {
    0 <= n < |s.requests| && reply.key == NewID(s, n) && reply.to == s.requests[n].origin
  }

  /** Every reply goes to the child whose request it answers, with that request's own id, and each
      request gets at most one, whatever ids the client replies with. */
  lemma RepliesReachOrigin(s: State, actions: seq<Action>)
    requires Initial(s) && Legal(s, actions)
    ensures var t := After(s, actions);
      && (forall reply :: reply in t.replies ==> exists n :: Matches(t, reply, n))
      && (forall i, j, n :: 0 <= i < j < |t.replies| && Matches(t, t.replies[i], n) ==> !Matches(t, t.replies[j], n))
  {
    hide ServerID, Legal, After;
    RunKeepsInv(s, actions);
    var t := After(s, actions);
    forall reply | reply in t.replies ensures exists n :: Matches(t, reply, n) {
      assert Issued(t, reply.key, reply.to);
      var n :| 0 <= n < |t.requests| && NewID(t, n) == reply.key && t.requests[n].origin == reply.to;
      assert Matches(t, reply, n);
    }
  }

  /** No stored request is forgotten: its route is in the table, or a reply to it was found. */
  ghost predicate Accounted(s: State) {
    forall n :: 0 <= n < |s.requests| && !s.requests[n].stage.Numbered? ==>
      (NewID(s, n) in s.routes && s.routes[NewID(s, n)] == s.requests[n].origin) || Replied(s, n)
  }

  ghost predicate Replied(s: State, n: nat)
    requires n < |s.requests|
  {
    exists i :: 0 <= i < |s.replies| && s.replies[i].key == NewID(s, n)
  }

  lemma RepliedPersists(s: State, t: State, n: nat)
    requires n < |s.requests| && Replied(s, n)
    requires n < |t.requests| && NewID(t, n) == NewID(s, n) && |s.replies| <= |t.replies|
    requires forall i :: 0 <= i < |s.replies| ==> t.replies[i].key == s.replies[i].key
    ensures Replied(t, n)
  {
    hide NewID;
    var i :| 0 <= i < |s.replies| && s.replies[i].key == NewID(s, n);
    assert t.replies[i].key == NewID(t, n);
  }

  lemma NextAccounts(s: State, a: Action)
    requires Inv(s) && Accounted(s) && Enabled(s, a)
    ensures Accounted(Next(s, a))
  {
    hide ServerID, RequestIDKey, Issued, Replied;
    var t := Next(s, a);
    forall n | 0 <= n < |t.requests| && !t.requests[n].stage.Numbered?
      ensures (NewID(t, n) in t.routes && t.routes[NewID(t, n)] == t.requests[n].origin) || Replied(t, n)
    {
      assert NewID(t, n) == NewID(s, n);
      if a.Store? {
        ServerIDTrimmed(s.requests[a.n].origin.accountID, (a.n + 1) % UINT64_RANGE);
        if n != a.n && NewID(s, n) == NewID(s, a.n) {
          NewIDsDistinct(s, n, a.n);
        }
      }
      if !s.requests[n].stage.Numbered? && Replied(s, n) {
        RepliedPersists(s, t, n);
      } else if a.ClientReplies? && NewID(s, n) !in t.routes {
        FreshReply(t, n);
      }
    }
  }

  lemma FreshReply(t: State, n: nat)
    requires n < |t.requests| && t.replies != [] && t.replies[|t.replies| - 1].key == NewID(t, n)
    ensures Replied(t, n)
  {
    hide NewID;
  }

  lemma {:induction false} RunAccounts(s: State, actions: seq<Action>)
    requires Inv(s) && Accounted(s) && Legal(s, actions)
    ensures Accounted(After(s, actions))
    decreases |actions|
  {
    hide Inv, Next, Enabled, Accounted;
    if actions != [] {
      NextKeepsInv(s, actions[0]);
      NextAccounts(s, actions[0]);
      RunAccounts(Next(s, actions[0]), actions[1..]);
    }
  }

  /** No reply is lost: the first client message that carries the rewritten id of a stored request, white space around it
      aside, is a reply to the child that sent the request; any further one changes nothing. */
  lemma FirstReplyCounts(s: State, actions: seq<Action>, n: nat, id: string)
    requires Initial(s) && Legal(s, actions)
    requires n < |After(s, actions).requests| && !After(s, actions).requests[n].stage.Numbered?
    requires TrimSpace(id) == NewID(After(s, actions), n)
    ensures var t := After(s, actions);
      var u := Next(t, ClientReplies(id));
      if exists i :: 0 <= i < |t.replies| && t.replies[i].key == NewID(t, n) then u == t
      else u.replies == t.replies + [Reply(NewID(t, n), t.requests[n].origin, false)]
  {
    hide ServerID, Legal, After, TrimSpace;
    RunKeepsInv(s, actions);
    RunAccounts(s, actions);
    var t := After(s, actions);
    assert Accounted(t) && Inv(t);
    assert RequestIDKey(id) == NewID(t, n);
  }

  /** A found reply keeps its destination, is sent when the child takes it, not before, and stays sent. */
  lemma RepliesAreSent(s: State, a: Action, i: nat)
    requires Enabled(s, a) && i < |s.replies|
    ensures i < |Next(s, a).replies|
    ensures var before, after := s.replies[i], Next(s, a).replies[i];
      && after.key == before.key && after.to == before.to
      && (after.sent <==> before.sent || a == SendReply(i, true))
  {
    hide RequestIDKey, NewID;
  }

  // ---- The source's form ----

  class Translator {
    var serverSequence: nat
    var serverRoutes: map<string, Origin>
    ghost var requests: seq<ServerRequest>
    ghost var replies: seq<Reply>

    ghost function View(): State
      reads this
    {
      State(serverSequence, serverRoutes, requests, replies)
    }

    constructor ()
      ensures Initial(View())
    {
      serverSequence, serverRoutes, requests, replies := 0, map[], [], [];
    }

    /** The atomic increment of forwardServerRequest. */
    method NextSequence(ghost origin: Origin) returns (sequence: nat)
      requires Inv(View()) && Enabled(View(), Number(origin))
      modifies this`serverSequence, this`requests
      ensures View() == Next(old(View()), Number(origin)) && Inv(View())
      ensures sequence == serverSequence == |requests|
    {
      NextKeepsInv(View(), Number(origin));
      serverSequence := (serverSequence + 1) % UINT64_RANGE;
      requests := requests + [ServerRequest(origin, Numbered)];
      sequence := serverSequence;
    }

    /** The rest of forwardServerRequest up to the write: returns the id the client sees. */
    method ForwardServerRequest(ghost n: nat, sequence: nat, accountID: string, id: string) returns (newID: string)
      requires Inv(View()) && Enabled(View(), Store(n)) && sequence == n + 1
      requires requests[n].origin == Origin(accountID, id)
      modifies this`serverRoutes, this`requests
      ensures View() == Next(old(View()), Store(n)) && Inv(View())
      ensures newID == NewID(View(), n)
      ensures newID !in old(serverRoutes) && serverRoutes == old(serverRoutes)[newID := Origin(accountID, id)]
    {
      hide ServerID, RequestIDKey;
      ghost var s := View();
      NextKeepsInv(s, Store(n));
      ServerIDTrimmed(accountID, sequence);
      forall key | key in serverRoutes ensures key != NewID(s, n) {
        StoredKeyFresh(s, n, key, serverRoutes[key]);
      }
      newID := ServerID(accountID, sequence);
      var key := RequestIDKey(newID);
      serverRoutes := serverRoutes[key := Origin(accountID, id)];
      requests := requests[n := requests[n].(stage := Stored)];
    }

    /** handleServerRequestResponse up to the send: who gets the reply, under which id. */
    method HandleServerRequestResponse(id: string) returns (found: bool, to: Origin)
      requires Inv(View())
      modifies this`serverRoutes, this`replies
      ensures View() == Next(old(View()), ClientReplies(id)) && Inv(View())
      ensures found <==> RequestIDKey(id) in old(serverRoutes)
      ensures found ==> to == old(serverRoutes)[RequestIDKey(id)] && RequestIDKey(id) !in serverRoutes
    {
      NextKeepsInv(View(), ClientReplies(id));
      var key := RequestIDKey(id);
      found, to := false, Origin("", "");
      if key in serverRoutes {
        found, to := true, serverRoutes[key];
        serverRoutes := serverRoutes - {key};
        replies := replies + [Reply(key, to, false)];
      }
    }
  }
}
