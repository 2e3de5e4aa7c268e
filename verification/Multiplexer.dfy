/** The handlers of internal/mux/mux.go in their own form: an object whose methods update the route
    table and the owners in place. Each method is one atomic section and is proved to take exactly the
    step of Router it stands for. `requests` records where each client request is; the code never reads it. */
module Multiplexer {
  import opened Accounts
  import opened Protocol
  import opened Router

  class Mux {
    var accounts: seq<Account>
    var children: set<string>
    var owners: map<string, string>
    var externalRoutes: map<string, Route>
    var output: seq<Answer>
    ghost var requests: seq<Request>

    ghost function View(): State
      reads this
    {
      State(accounts, children, owners, externalRoutes, requests, output)
    }

    constructor (accounts: seq<Account>)
      ensures Initial(View()) && View().accounts == accounts && owners == map[]
    {
      this.accounts, children, owners := accounts, {}, map[];
      externalRoutes, output, requests := map[], [], [];
    }

    /** HandleClient, for a message with a method and an id. */
    method HandleClient(m: Message) returns (next: Where)
      requires Enabled(View(), Accept(m))
      modifies this`requests
      ensures View() == Next(old(View()), Accept(m))
      ensures next == requests[|requests| - 1].at
    {
      if m.verb == "initialize" {
        next := Computing;
      } else if m.verb == "thread/list" {
        next := Computing;
      } else if m.verb == "thread/start" {
        next := ChoosingNew;
      } else if m.verb == "account/rateLimits/read" {
        next := Computing;
      } else {
        next := Routing;
      }
      requests := requests + [Request(m, next, [])];
    }

    /** routeExistingRequest up to the call that forwards or answers. */
    method RouteExistingRequest(ghost n: nat, message: Message) returns (sent: Message, next: Where)
      requires Enabled(View(), RouteExisting(n)) && requests[n].message == message
      modifies this`requests
      ensures View() == Next(old(View()), RouteExisting(n))
      ensures requests[n].message == sent && requests[n].at == next
    {
      hide Find, Controller, Next, RouteEvents;
      RouteExistingMoves(View(), n);
      sent := message;
      var account := "";
      var scoped := message.verb in SCOPED_METHODS && message.scope != "";
      var named := Find(accounts, message.scope);
      if scoped && named.Some? && named.value.enabled {
        sent := message.(scope := "");
        next := Forwarding(message.scope, {});
      } else {
        if message.threadId != "" && message.threadId in owners {
          account := owners[message.threadId];
        }
        if account == "" {
          var controller := Controller(accounts);
          if controller.Some? {
            account := controller.value.id;
          }
        }
        if account == "" {
          next := Answering(message.id, Refusal(NO_CONTROLLER));
        } else if message.verb == "turn/start" && message.threadId != "" {
          next := CheckingOwner(message.threadId, account);
        } else {
          next := Forwarding(account, {});
        }
      }
      requests := requests[n := Request(sent, next, requests[n].trace + RouteEvents(next))];
    }

    /** forwardWithExclusions up to the send: look the child up and store the route. */
    method StoreRoute(ghost n: nat, accountID: string, message: Message, excluded: set<string>) returns (stored: bool)
      requires Enabled(View(), Register(n)) && requests[n].message == message
      requires requests[n].at == Forwarding(accountID, excluded)
      modifies this`externalRoutes, this`requests
      ensures View() == Next(old(View()), Register(n))
      ensures stored <==> accountID in children
    {
      ghost var state := Next(View(), Register(n));
      if accountID !in children {
        stored := false;
      } else {
        externalRoutes := externalRoutes[RequestIDKey(message.id) := Route(accountID, message.verb, message, excluded)];
        stored := true;
      }
      requests := state.requests;
    }

    /** forwardWithExclusions after a failed send: delete the route. */
    method DropRoute(ghost n: nat, message: Message)
      requires Enabled(View(), Unroute(n)) && requests[n].message == message
      modifies this`externalRoutes, this`requests
      ensures View() == Next(old(View()), Unroute(n))
    {
      ghost var state := Next(View(), Unroute(n));
      externalRoutes := externalRoutes - {RequestIDKey(message.id)};
      requests := state.requests;
    }

    /** handleInbound for a response: take its route and decide who goes on. */
    method HandleInbound(ghost n: nat, accountID: string, response: Response) returns (next: Option<Where>)
      requires Enabled(View(), Receive(n))
      requires requests[n].at.account == accountID && requests[n].at.response == response
      modifies this`externalRoutes, this`requests
      ensures View() == Next(old(View()), Receive(n))
      ensures next == if requests[n].at.Lost? then None else Some(requests[n].at)
    {
      ghost var state := Next(View(), Receive(n));
      var key := RequestIDKey(response.id);
      if key in externalRoutes {
        var route := externalRoutes[key];
        externalRoutes := externalRoutes - {key};
        if route.verb == "turn/start" && response.usageLimit {
          next := Some(Retrying(route, accountID));
        } else {
          next := Some(Learning(route, accountID, response));
        }
      } else {
        next := None;
      }
      requests := state.requests;
    }

    /** retryTurnAfterUsageLimit up to failoverTurn. */
    method RetryTurnAfterUsageLimit(ghost n: nat, route: Route, exhausted: string) returns (next: Where)
      requires Enabled(View(), Retry(n)) && requests[n].at == Retrying(route, exhausted)
      modifies this`requests
      ensures View() == Next(old(View()), Retry(n))
      ensures requests[n].at == next
    {
      ghost var state := Next(View(), Retry(n));
      var threadId := route.message.threadId;
      if threadId == "" {
        next := Answering(route.message.id, Refusal(ALL_DEPLETED));
      } else {
        var excluded := route.excluded;
        excluded := excluded + {exhausted};
        next := FailingOver(threadId, exhausted, excluded);
      }
      requests := state.requests;
    }

    /** The owner update of failoverTurn; `saved` is the outcome of writing the state file. */
    method RecordFailover(ghost n: nat, threadId: string, target: string, saved: bool) returns (ok: bool)
      requires Enabled(View(), Record(n, saved))
      requires requests[n].at.thread == threadId && requests[n].at.target == target
      modifies this`owners, this`requests
      ensures View() == Next(old(View()), Record(n, saved))
      ensures ok ==> threadId in owners && owners[threadId] == target
    {
      ghost var state := Next(View(), Record(n, saved));
      ok := SetThreadOwner(threadId, target, saved);
      requests := state.requests;
    }

    /** learnThreadOwner. */
    method LearnThreadOwner(ghost n: nat, route: Route, accountID: string, response: Response, saved: bool)
      requires Enabled(View(), Learn(n, saved)) && requests[n].at == Learning(route, accountID, response)
      modifies this`owners, this`requests
      ensures View() == Next(old(View()), Learn(n, saved))
    {
      ghost var state := Next(View(), Learn(n, saved));
      if route.verb in OWNER_METHODS && response.threadId != "" {
        var ignored := SetThreadOwner(response.threadId, accountID, saved);
      }
      requests := state.requests;
    }

    method SetThreadOwner(threadId: string, accountID: string, saved: bool) returns (ok: bool)
      modifies this`owners
      ensures (owners, ok) == SetOwner(old(owners), threadId, accountID, saved)
    {
      if threadId == "" || accountID == "" {
        return false;
      }
      if threadId in owners && owners[threadId] == accountID {
        return true;
      }
      owners := owners[threadId := accountID];
      return saved;
    }

    /** write and writeRaw: one answer goes out under the output lock. */
    method WriteAnswer(ghost n: nat, id: string, content: Content)
      requires Enabled(View(), Write(n)) && requests[n].at == Answering(id, content)
      modifies this`output, this`requests
      ensures View() == Next(old(View()), Write(n))
    {
      ghost var state := Next(View(), Write(n));
      output := output + [Answer(RequestIDKey(id), content)];
      requests := state.requests;
    }
  }
}
