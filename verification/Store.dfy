/** The routing state of internal/state/store.go, with the state file and its failures. */
module Store {
  import opened Accounts
  import Text

  const STATE_VERSION := 1

  datatype Persisted = Persisted(version: int, accounts: seq<Account>, owners: map<string, string>)

  /** What reading the state file yields. */
  datatype File = Missing | Unreadable | Malformed | Contents(state: Persisted)

  datatype Opened = Failed | Loaded(accounts: seq<Account>, owners: map<string, string>, file: File)

  function Primary(home: string, now: int): Account {
    Account("primary", "Primary", home, true, true, now)
  }

  /** saveLocked: the temporary file is renamed over the old one, or nothing happens to it. */
  function Saved(file: File, accounts: seq<Account>, owners: map<string, string>, ok: bool): File {
    if ok then Contents(Persisted(STATE_VERSION, accounts, owners)) else file
  }

  /** Open, up to the config synchronisation of the isolated accounts. */
  function Open(file: File, home: string, now: int, ok: bool): Opened {
    match file
    case Contents(state) =>
      if state.version != STATE_VERSION then Failed else Loaded(state.accounts, state.owners, file)
    case Missing =>
      var accounts := [Primary(home, now)];
      if ok then Loaded(accounts, map[], Saved(file, accounts, map[], ok)) else Failed
    case _ => Failed
  }

  /** A store opens only on a file of version 1, taking over what it holds, or without a file once the first save of a
      single enabled controller succeeds. */
  lemma OpensIff(file: File, home: string, now: int, ok: bool)
    ensures Open(file, home, now, ok).Loaded? <==> (file.Contents? && file.state.version == 1) || (file.Missing? && ok)
    ensures var r := Open(file, home, now, ok);
      r.Loaded? ==>
        && r.file == Contents(Persisted(1, r.accounts, r.owners))
        && if file.Contents? then r.file == file
           else r.accounts == [Account("primary", "Primary", home, true, true, now)] && r.owners == map[]
  {
  }

  // ---- Runs of a store ----

  /** A state the memory has been in, and whether the file held it then. */
  datatype Version = Version(state: Persisted, saved: bool)

  /** `history` lists every version, oldest first. */
  datatype State = State(accounts: seq<Account>, owners: map<string, string>, file: File, history: seq<Version>)

  /** The memory of the most recent successful save. */
  function LastSaved(history: seq<Version>): (r: Option<Persisted>)
    ensures r.Some? <==> exists i :: 0 <= i < |history| && history[i].saved
    ensures r.Some? ==> exists i :: 0 <= i < |history| && history[i] == Version(r.value, true) &&
                          forall k :: i < k < |history| ==> !history[k].saved
  {
    if history == [] then None
    else
      var last := history[|history| - 1];
      if last.saved then Some(last.state) else LastSaved(history[..|history| - 1])
  }

  datatype Action =
    | AddAccount(title: string, id: string, home: string, now: int, ok: bool)
    | UpdateAccount(id: string, newTitle: Option<string>, enabled: Option<bool>, ok: bool)
    | SetThreadOwner(thread: string, account: string, ok: bool)
    | Reopen(home: string, now: int, ok: bool)    // the process ends and a new one opens the same directory

  function Memory(s: State): Persisted {
    Persisted(STATE_VERSION, s.accounts, s.owners)
  }

  /** Memory changes, then one attempt to save it. */
  function Commit(s: State, accounts: seq<Account>, owners: map<string, string>, ok: bool): State {
    State(accounts, owners, Saved(s.file, accounts, owners, ok),
          s.history + [Version(Persisted(STATE_VERSION, accounts, owners), ok)])
  }

  function IndexOf(accounts: seq<Account>, id: string): (r: Option<nat>)
    ensures r.Some? ==> r.value < |accounts| && accounts[r.value].id == id
    ensures r.Some? ==> forall i :: 0 <= i < r.value ==> accounts[i].id != id
    ensures r.None? ==> forall i :: 0 <= i < |accounts| ==> accounts[i].id != id
  {
    if accounts == [] then None
    else if accounts[0].id == id then Some(0)
    else
      var rest := IndexOf(accounts[1..], id);
      if rest.None? then None else Some(rest.value + 1)
  }

  /** UpdateAccount rejects a blank title before it touches anything. */
  predicate BlankTitle(title: Option<string>) {
    title.Some? && Text.TrimSpace(title.value) == ""
  }

  function Updated(a: Account, title: Option<string>, enabled: Option<bool>): Account {
    a.(title := if title.Some? then Text.TrimSpace(title.value) else a.title,
       enabled := if enabled.Some? then enabled.value else a.enabled)
  }

  /** The default title carries a number the rest of the model never looks at. */
  function TitleOr(title: string, count: nat): string {
    var trimmed := Text.TrimSpace(title);
    if trimmed == "" then "Subscription " + Text.Decimal(count + 1) else trimmed
  }

  /** randomID is assumed fresh; the router only ever records the ids of known accounts as owners. */
  ghost predicate Enabled(s: State, a: Action) {
    match a
    case AddAccount(_, id, _, _, _) => id !in Ids(s.accounts) && id != ""
    case UpdateAccount(_, _, _, _) => true
    case SetThreadOwner(_, account, _) => account in Ids(s.accounts)
    case Reopen(_, _, _) => true
  }

  function Next(s: State, a: Action): State {
    match a
    case AddAccount(title, id, home, now, ok) =>
      Commit(s, s.accounts + [Account(id, TitleOr(title, |s.accounts|), home, true, false, now)], s.owners, ok)
    case UpdateAccount(id, title, enabled, ok) =>
      var i := IndexOf(s.accounts, id);
      if i.None? || BlankTitle(title) then s
      else Commit(s, s.accounts[i.value := Updated(s.accounts[i.value], title, enabled)], s.owners, ok)
    case SetThreadOwner(thread, account, ok) =>
      if thread == "" || account == "" then s
      else if thread in s.owners && s.owners[thread] == account then s
      else Commit(s, s.accounts, s.owners[thread := account], ok)
    case Reopen(home, now, ok) =>
      match Open(s.file, home, now, ok)
      case Failed => s
      case Loaded(accounts, owners, file) =>
        State(accounts, owners, file, s.history + [Version(Persisted(STATE_VERSION, accounts, owners), true)])
  }

  /** Whether the call returned nil. */
  function Succeeds(s: State, a: Action): bool {
    match a
    case AddAccount(_, _, _, _, ok) => ok
    case UpdateAccount(id, title, _, ok) => IndexOf(s.accounts, id).Some? && !BlankTitle(title) && ok
    case SetThreadOwner(thread, account, ok) =>
      thread != "" && account != "" && (ok || (thread in s.owners && s.owners[thread] == account))
    case Reopen(home, now, ok) => Open(s.file, home, now, ok).Loaded?
  }

  /** A store bootstrapped without a state file. */
  ghost predicate Initial(s: State) {
    s.history == [Version(Memory(s), true)] &&
    exists home, now :: Open(Missing, home, now, true) == Loaded(s.accounts, s.owners, s.file)
  }

  ghost predicate Legal(s: State, actions: seq<Action>)
    decreases |actions|
  {
    actions == [] || (Enabled(s, actions[0]) && Legal(Next(s, actions[0]), actions[1..]))
  }

  ghost function After(s: State, actions: seq<Action>): State
    decreases |actions|
  {
    if actions == [] then s else After(Next(s, actions[0]), actions[1..])
  }

  // ---- The invariant ----

  ghost predicate DistinctIds(accounts: seq<Account>) {
    forall i, j :: 0 <= i < j < |accounts| ==> accounts[i].id != accounts[j].id
  }

  function ControllerCount(accounts: seq<Account>): nat {
    if accounts == [] then 0
    else ControllerCount(accounts[..|accounts| - 1]) + (if accounts[|accounts| - 1].controller then 1 else 0)
  }

  ghost predicate OwnersKnown(accounts: seq<Account>, owners: map<string, string>) {
    forall thread :: thread in owners ==> owners[thread] in Ids(accounts)
  }

  ghost predicate Good(p: Persisted) {
    && p.version == STATE_VERSION
    && DistinctIds(p.accounts) && ControllerCount(p.accounts) == 1 && OwnersKnown(p.accounts, p.owners)
  }

  /** Every version ever, saved or not, was good; the file is the last saved one and lists no account memory lacks. */
  ghost predicate Inv(s: State) {
    && (forall v :: v in s.history ==> Good(v.state))
    && s.history != [] && s.history[|s.history| - 1].state == Memory(s)
    && s.file.Contents? && LastSaved(s.history) == Some(s.file.state)
    && Ids(s.file.state.accounts) <= Ids(s.accounts)
  }

  lemma {:induction false} ControllerCountUpdate(accounts: seq<Account>, i: nat, a: Account)
    requires i < |accounts| && a.controller == accounts[i].controller
    ensures ControllerCount(accounts[i := a]) == ControllerCount(accounts)
  {
    var init := accounts[..|accounts| - 1];
    if i < |accounts| - 1 {
      ControllerCountUpdate(init, i, a);
      assert accounts[i := a][..|accounts| - 1] == init[i := a];
    } else {
      assert accounts[i := a][..|accounts| - 1] == init;
    }
  }

  lemma CommitKeepsInv(s: State, accounts: seq<Account>, owners: map<string, string>, ok: bool)
    requires Inv(s) && DistinctIds(accounts) && ControllerCount(accounts) == 1 && OwnersKnown(accounts, owners)
    requires Ids(s.accounts) <= Ids(accounts)
    ensures Inv(Commit(s, accounts, owners, ok))
    ensures Ids(s.file.state.accounts) <= Ids(Commit(s, accounts, owners, ok).file.state.accounts)
  {
    hide DistinctIds, ControllerCount, OwnersKnown, Ids;
    var version := Version(Persisted(STATE_VERSION, accounts, owners), ok);
    assert (s.history + [version])[..|s.history|] == s.history;
  }

  lemma AddKeepsAccounts(accounts: seq<Account>, a: Account, owners: map<string, string>)
    requires DistinctIds(accounts) && ControllerCount(accounts) == 1 && OwnersKnown(accounts, owners)
    requires a.id !in Ids(accounts) && !a.controller
    ensures DistinctIds(accounts + [a]) && ControllerCount(accounts + [a]) == 1 && OwnersKnown(accounts + [a], owners)
    ensures Ids(accounts) <= Ids(accounts + [a])
  {
    assert (accounts + [a])[..|accounts|] == accounts;
    assert forall i :: 0 <= i < |accounts| ==> (accounts + [a])[i] == accounts[i];
  }

  lemma UpdateKeepsAccounts(accounts: seq<Account>, i: nat, a: Account, owners: map<string, string>)
    requires DistinctIds(accounts) && ControllerCount(accounts) == 1 && OwnersKnown(accounts, owners)
    requires i < |accounts| && a.id == accounts[i].id && a.controller == accounts[i].controller
    ensures var after := accounts[i := a];
      DistinctIds(after) && ControllerCount(after) == 1 && OwnersKnown(after, owners) && Ids(accounts) <= Ids(after)
  {
    ControllerCountUpdate(accounts, i, a);
    var after := accounts[i := a];
    assert forall k :: 0 <= k < |accounts| ==> after[k].id == accounts[k].id;
  }

  lemma NextKeepsInv(s: State, a: Action)
    requires Inv(s) && Enabled(s, a)
    ensures Inv(Next(s, a)) && s.file.Contents? && Next(s, a).file.Contents?
    ensures Ids(s.file.state.accounts) <= Ids(Next(s, a).file.state.accounts)
    ensures !a.Reopen? ==> Ids(s.accounts) <= Ids(Next(s, a).accounts)
  {
    hide Text.TrimSpace, Text.Decimal, IndexOf, ControllerCount, DistinctIds, OwnersKnown, Ids, Inv, Commit, Open;
    InvFacts(s);
    match a {
      case AddAccount(title, id, home, now, ok) =>
        var account := Account(id, TitleOr(title, |s.accounts|), home, true, false, now);
        AddKeepsAccounts(s.accounts, account, s.owners);
        CommitKeepsInv(s, s.accounts + [account], s.owners, ok);
        CommitParts(s, s.accounts + [account], s.owners, ok);
      case UpdateAccount(id, title, enabled, ok) =>
        var i := IndexOf(s.accounts, id);
        if i.Some? && !BlankTitle(title) {
          var account := Updated(s.accounts[i.value], title, enabled);
          UpdateKeepsAccounts(s.accounts, i.value, account, s.owners);
          CommitKeepsInv(s, s.accounts[i.value := account], s.owners, ok);
          CommitParts(s, s.accounts[i.value := account], s.owners, ok);
        }
      case SetThreadOwner(thread, account, ok) =>
        OwnerKeepsKnown(s.accounts, s.owners, thread, account);
        CommitKeepsInv(s, s.accounts, s.owners[thread := account], ok);
        CommitParts(s, s.accounts, s.owners[thread := account], ok);
      case Reopen(home, now, ok) =>
        ReopenLoads(s, home, now, ok);
    }
  }

  lemma InvFacts(s: State)
    requires Inv(s)
    ensures DistinctIds(s.accounts) && ControllerCount(s.accounts) == 1 && OwnersKnown(s.accounts, s.owners)
    ensures s.file.Contents?
  {
    hide DistinctIds, ControllerCount, OwnersKnown, Ids;
    assert s.history[|s.history| - 1] in s.history;
  }

  lemma OwnerKeepsKnown(accounts: seq<Account>, owners: map<string, string>, thread: string, account: string)
    requires OwnersKnown(accounts, owners) && account in Ids(accounts)
    ensures OwnersKnown(accounts, owners[thread := account])
  {
  }

  lemma CommitParts(s: State, accounts: seq<Account>, owners: map<string, string>, ok: bool)
    ensures Commit(s, accounts, owners, ok).accounts == accounts
    ensures s.file.Contents? ==> Commit(s, accounts, owners, ok).file.Contents?
  {
  }

  /** A restart succeeds, takes over what the file holds, and keeps the invariant. */
  lemma ReopenLoads(s: State, home: string, now: int, ok: bool)
    requires Inv(s)
    ensures Open(s.file, home, now, ok) == Loaded(s.file.state.accounts, s.file.state.owners, s.file)
    ensures var t := Next(s, Reopen(home, now, ok));
      && Inv(t) && t.file == s.file && Memory(t) == s.file.state
      && t.history == s.history + [Version(s.file.state, true)]
  {
    hide DistinctIds, ControllerCount, OwnersKnown, Ids;
    assert Version(s.file.state, true) in s.history;
    assert Good(s.file.state);
    assert (s.history + [Version(s.file.state, true)])[..|s.history|] == s.history;
  }

  lemma {:induction false} RunKeepsInv(s: State, actions: seq<Action>)
    requires Inv(s) && Legal(s, actions)
    ensures Inv(After(s, actions)) && s.file.Contents? && After(s, actions).file.Contents?
    ensures Ids(s.file.state.accounts) <= Ids(After(s, actions).file.state.accounts)
    decreases |actions|
  {
    hide Next, Enabled, Ids;
    if actions != [] {
      NextKeepsInv(s, actions[0]);
      RunKeepsInv(Next(s, actions[0]), actions[1..]);
    }
  }

  lemma InitialInv(s: State)
    requires Initial(s)
    ensures Inv(s)
  {
    assert s.accounts[..0] == [];
    assert |s.accounts| == 1;
    assert Good(Memory(s));
    assert s.history[..0] == [];
  }

  // ---- Main results ----

  /** Over every run, with any number of restarts: ids stay distinct, there is exactly one controller and Controller
      finds it, every recorded owner is a known account, the file is the complete memory of the last successful save,
      and no account that was ever saved is removed, in particular not the first one. */
  lemma RunsStayConsistent(s: State, actions: seq<Action>)
    requires Initial(s) && Legal(s, actions)
    ensures var t := After(s, actions);
      && DistinctIds(t.accounts) && ControllerCount(t.accounts) == 1
      && Controller(t.accounts).Some? && Controller(t.accounts).value.controller
      && OwnersKnown(t.accounts, t.owners)
      && t.file.Contents? && LastSaved(t.history) == Some(t.file.state)
      && Ids(s.accounts) <= Ids(t.file.state.accounts) <= Ids(t.accounts)
  {
    hide Legal, After, Ids, Controller, ControllerCount, DistinctIds, OwnersKnown;
    InitialInv(s);
    RunKeepsInv(s, actions);
    InvFacts(After(s, actions));
    ControllerExists(After(s, actions).accounts);
  }

  ghost predicate NoRestart(actions: seq<Action>) {
    forall i :: 0 <= i < |actions| ==> !actions[i].Reopen?
  }

  /** Between restarts the history only grows, and no account is removed. */
  lemma {:induction false} SessionKeepsAccounts(s: State, actions: seq<Action>)
    requires Inv(s) && Legal(s, actions) && NoRestart(actions)
    ensures var t := After(s, actions);
      && Ids(s.accounts) <= Ids(t.accounts)
      && s.history <= t.history
      && forall i :: |s.history| <= i < |t.history| ==> Ids(s.accounts) <= Ids(t.history[i].state.accounts)
    decreases |actions|
  {
    hide Inv, Next, Enabled, Ids;
    if actions != [] {
      var a, u := actions[0], Next(s, actions[0]);
      NextKeepsInv(s, a);
      NextHistory(s, a);
      assert NoRestart(actions[1..]);
      SessionKeepsAccounts(u, actions[1..]);
      var t := After(s, actions);
      forall i | |s.history| <= i < |t.history| ensures Ids(s.accounts) <= Ids(t.history[i].state.accounts) {
        if i < |u.history| {
          assert t.history[i] == u.history[i];
        }
      }
    }
  }

  lemma NextHistory(s: State, a: Action)
    requires !a.Reopen?
    ensures var t := Next(s, a);
      && s.history <= t.history
      && forall i :: |s.history| <= i < |t.history| ==> t.history[i].state == Memory(t)
  {
    hide Text.TrimSpace, Text.Decimal, IndexOf;
  }

  lemma {:induction false} LastSavedBefore(history: seq<Version>, n: nat)
    requires n <= |history| && forall i :: n <= i < |history| ==> !history[i].saved
    ensures LastSaved(history) == LastSaved(history[..n])
  {
    if n == |history| {
      assert history[..n] == history;
    } else {
      LastSavedBefore(history[..|history| - 1], n);
      assert history[..|history| - 1][..n] == history[..n];
    }
  }

  /** An account survives a restart exactly when a save succeeded from its addition on: its own, or a later one. */
  lemma SurvivesRestartIff(s: State, add: Action, later: seq<Action>, restart: Action)
    requires Inv(s) && add.AddAccount? && Enabled(s, add) && Legal(Next(s, add), later) && NoRestart(later)
    requires restart.Reopen?
    ensures var t := After(Next(s, add), later);
      add.id in Ids(Next(t, restart).accounts) <==> exists i :: |s.history| <= i < |t.history| && t.history[i].saved
  {
    hide Legal, After, Enabled, Open, Next, Inv, Ids, Good;
    var u, t := Next(s, add), After(Next(s, add), later);
    NextKeepsInv(s, add);
    AddedIsThere(s, add);
    RunKeepsInv(u, later);
    SessionKeepsAccounts(u, later);
    ReopenLoads(t, restart.home, restart.now, restart.ok);
    assert t.history[|s.history|] == u.history[|s.history|];
    InvFile(s);
    InvFile(t);
    SavedSince(s.history, t.history, add.id);
  }

  lemma InvFile(s: State)
    requires Inv(s)
    ensures s.file.Contents? && LastSaved(s.history) == Some(s.file.state) && Ids(s.file.state.accounts) <= Ids(s.accounts)
  {
    hide Good, Ids;
  }

  /** The last saved version lists `id` exactly when one was saved since all versions list it. */
  lemma SavedSince(before: seq<Version>, history: seq<Version>, id: string)
    requires before <= history && LastSaved(before).Some? && LastSaved(history).Some?
    requires id !in Ids(LastSaved(before).value.accounts)
    requires forall i :: |before| <= i < |history| ==> id in Ids(history[i].state.accounts)
    ensures id in Ids(LastSaved(history).value.accounts) <==> exists i :: |before| <= i < |history| && history[i].saved
  {
    hide Ids, LastSaved;
    if exists i :: |before| <= i < |history| && history[i].saved {
      var i :| |before| <= i < |history| && history[i].saved;
      var w := LastSavedAt(history);
      assert i <= w;
    } else {
      LastSavedBefore(history, |before|);
      assert history[..|before|] == before;
    }
  }

  lemma LastSavedAt(history: seq<Version>) returns (w: nat)
    requires LastSaved(history).Some?
    ensures w < |history| && history[w] == Version(LastSaved(history).value, true)
    ensures forall k :: w < k < |history| ==> !history[k].saved
  {
    hide LastSaved;
    w :| 0 <= w < |history| && history[w] == Version(LastSaved(history).value, true) &&
         forall k :: w < k < |history| ==> !history[k].saved;
  }

  lemma AddedIsThere(s: State, add: Action)
    requires add.AddAccount? && Enabled(s, add)
    ensures var u := Next(s, add);
      && add.id in Ids(u.accounts) && add.id !in Ids(s.accounts)
      && |u.history| == |s.history| + 1 && s.history <= u.history && u.history[|s.history|].state.accounts == u.accounts
  {
    hide Text.TrimSpace, Text.Decimal;
    var u := Next(s, add);
    assert u.accounts[|s.accounts|].id == add.id;
  }

  // ---- What the calls on accounts do ----

  lemma {:induction false} FindAppended(accounts: seq<Account>, a: Account, id: string)
    ensures Find(accounts + [a], id) ==
            if Find(accounts, id).None? && a.id == id then Some(a) else Find(accounts, id)
  {
    if accounts != [] {
      FindAppended(accounts[1..], a, id);
      assert (accounts + [a])[1..] == accounts[1..] + [a];
    }
  }

  lemma {:induction false} FindReplaced(accounts: seq<Account>, i: nat, a: Account, other: string)
    requires i < |accounts| && a.id == accounts[i].id && other != a.id
    ensures Find(accounts[i := a], other) == Find(accounts, other)
  {
    if i > 0 {
      FindReplaced(accounts[1..], i - 1, a, other);
      assert accounts[i := a][1..] == accounts[1..][i - 1 := a];
    }
  }

  lemma NewFound(accounts: seq<Account>, a: Account)
    requires a.id !in Ids(accounts)
    ensures Find(accounts + [a], a.id) == Some(a)
  {
    FindAppended(accounts, a, a.id);
  }

  /** A new account is found under its id with the given title, enabled and no controller, in the file too once saved;
      everything else is as before. */
  lemma AddTakesEffect(s: State, title: string, id: string, home: string, now: int, ok: bool)
    requires Inv(s) && Enabled(s, AddAccount(title, id, home, now, ok))
    ensures var t := Next(s, AddAccount(title, id, home, now, ok));
      && (forall other :: other != id ==> Find(t.accounts, other) == Find(s.accounts, other))
      && t.owners == s.owners && t.file == (if ok then Contents(Memory(t)) else s.file)
      && Find(t.accounts, id).Some?
      && var a := Find(t.accounts, id).value;
         && a.enabled && !a.controller && a.codexHome == home && a.createdAt == now
         && (Text.TrimSpace(title) != "" ==> a.title == Text.TrimSpace(title))
  {
    hide Text.TrimSpace, Text.Decimal, IndexOf, Inv, Find;
    var a := Account(id, TitleOr(title, |s.accounts|), home, true, false, now);
    forall other ensures Find(s.accounts + [a], other) ==
                         if Find(s.accounts, other).None? && a.id == other then Some(a) else Find(s.accounts, other) {
      FindAppended(s.accounts, a, other);
    }
  }

  /** An update gives the account the trimmed title and the enabled flag it names, in the file too once saved, and
      changes nothing else; without the account, or with a blank title, it changes nothing at all. */
  lemma UpdateTakesEffect(s: State, id: string, title: Option<string>, enabled: Option<bool>, ok: bool)
    requires Inv(s)
    ensures var t := Next(s, UpdateAccount(id, title, enabled, ok));
      if Find(s.accounts, id).None? || (title.Some? && Text.TrimSpace(title.value) == "") then t == s
      else
        && (forall other :: other != id ==> Find(t.accounts, other) == Find(s.accounts, other))
        && t.owners == s.owners && t.file == (if ok then Contents(Memory(t)) else s.file)
        && Find(t.accounts, id).Some?
        && var was, now := Find(s.accounts, id).value, Find(t.accounts, id).value;
           && now.title == (if title.Some? then Text.TrimSpace(title.value) else was.title)
           && now.enabled == (if enabled.Some? then enabled.value else was.enabled)
           && now.controller == was.controller && now.codexHome == was.codexHome && now.createdAt == was.createdAt
  {
    hide Text.TrimSpace, Text.Decimal, IndexOf, Inv, Find, ControllerCount, OwnersKnown;
    var i := IndexOf(s.accounts, id);
    InvFacts(s);
    if i.Some? {
      var a := Updated(s.accounts[i.value], title, enabled);
      FindDistinct(s.accounts, i.value);
      UpdateKeepsAccounts(s.accounts, i.value, a, s.owners);
      FindDistinct(s.accounts[i.value := a], i.value);
      forall other | other != id ensures Find(s.accounts[i.value := a], other) == Find(s.accounts, other) {
        FindReplaced(s.accounts, i.value, a, other);
      }
    }
  }

  /** No call in `actions` updates this account, and none restarts the process. */
  ghost predicate LeavesAlone(actions: seq<Action>, id: string) {
    NoRestart(actions) && forall k :: 0 <= k < |actions| ==> !(actions[k].UpdateAccount? && actions[k].id == id)
  }

  lemma StepLeavesAlone(s: State, a: Action, id: string)
    requires Inv(s) && Enabled(s, a) && !a.Reopen? && !(a.UpdateAccount? && a.id == id) && id in Ids(s.accounts)
    ensures Find(Next(s, a).accounts, id) == Find(s.accounts, id)
  {
    hide Text.TrimSpace, Text.Decimal, Inv, Find;
    match a {
      case AddAccount(title, added, home, now, ok) =>
        AddTakesEffect(s, title, added, home, now, ok);
      case UpdateAccount(updated, title, enabled, ok) =>
        UpdateTakesEffect(s, updated, title, enabled, ok);
      case SetThreadOwner(thread, account, ok) =>
        SetThreadOwnerInMemory(s, thread, account, ok);
    }
  }

  lemma {:induction false} RecordKept(s: State, actions: seq<Action>, id: string)
    requires Inv(s) && Legal(s, actions) && LeavesAlone(actions, id) && id in Ids(s.accounts)
    ensures var t := After(s, actions);
      && Inv(t) && s.history <= t.history && Find(t.accounts, id) == Find(s.accounts, id)
      && forall i :: |s.history| <= i < |t.history| ==> Find(t.history[i].state.accounts, id) == Find(s.accounts, id)
    decreases |actions|
  {
    hide Inv, Next, Enabled, Ids, Find;
    if actions != [] {
      var a, u := actions[0], Next(s, actions[0]);
      NextKeepsInv(s, a);
      NextHistory(s, a);
      StepLeavesAlone(s, a, id);
      assert LeavesAlone(actions[1..], id);
      RecordKept(u, actions[1..], id);
      var t := After(s, actions);
      forall i | |s.history| <= i < |t.history| ensures Find(t.history[i].state.accounts, id) == Find(s.accounts, id) {
        if i < |u.history| {
          assert t.history[i] == u.history[i];
        }
      }
    }
  }

  /** A saved update is what memory holds until the account is updated again, and what a restart finds. */
  lemma SavedUpdateStays(s: State, id: string, title: Option<string>, enabled: Option<bool>, later: seq<Action>, restart: Action)
    requires Inv(s) && Find(s.accounts, id).Some? && (title.Some? ==> Text.TrimSpace(title.value) != "")
    requires Legal(Next(s, UpdateAccount(id, title, enabled, true)), later) && LeavesAlone(later, id) && restart.Reopen?
    ensures var t := After(Next(s, UpdateAccount(id, title, enabled, true)), later);
      var now, found := Find(t.accounts, id), Find(Next(t, restart).accounts, id);
      && now.Some? && found == now
      && (title.Some? ==> now.value.title == Text.TrimSpace(title.value))
      && (enabled.Some? ==> now.value.enabled == enabled.value)
  {
    hide Legal, After, Enabled, Open, Inv, Ids, Good, Find, Text.TrimSpace, Text.Decimal, Next, LeavesAlone;
    var update := UpdateAccount(id, title, enabled, true);
    var u, t := Next(s, update), After(Next(s, update), later);
    EnabledUpdate(s, update);
    NextKeepsInv(s, update);
    UpdateTakesEffect(s, id, title, enabled, true);
    FoundIsKnown(u.accounts, id);
    RecordKept(u, later, id);
    ReopenLoads(t, restart.home, restart.now, restart.ok);
    InvFile(t);
    InvFile(u);
    SavedRecord(u.history, t.history, id, Find(u.accounts, id));
  }

  lemma EnabledUpdate(s: State, a: Action)
    requires a.UpdateAccount?
    ensures Enabled(s, a)
  {
  }

  lemma FoundIsKnown(accounts: seq<Account>, id: string)
    requires Find(accounts, id).Some?
    ensures id in Ids(accounts)
  {
  }

  lemma SavedRecord(before: seq<Version>, history: seq<Version>, id: string, record: Option<Account>)
    requires before <= history && LastSaved(before).Some? && LastSaved(history).Some?
    requires Find(LastSaved(before).value.accounts, id) == record
    requires forall i :: |before| <= i < |history| ==> Find(history[i].state.accounts, id) == record
    ensures Find(LastSaved(history).value.accounts, id) == record
  {
    hide Find, LastSaved;
    var w := LastSavedAt(history);
    if w < |before| {
      LastSavedBefore(history, |before|);
      assert history[..|before|] == before;
    }
  }

  lemma {:induction false} ControllerExists(accounts: seq<Account>)
    requires ControllerCount(accounts) > 0
    ensures exists i :: 0 <= i < |accounts| && accounts[i].controller
  {
    if !accounts[|accounts| - 1].controller {
      ControllerExists(accounts[..|accounts| - 1]);
    }
  }

  /** Reopening restores exactly the memory of the last successful save, so everything when that save was the last
      change. */
  lemma ReopenRestores(s: State, actions: seq<Action>, home: string, now: int, ok: bool)
    requires Initial(s) && Legal(s, actions)
    ensures var t := After(s, actions);
      var saved := LastSaved(t.history);
      && saved.Some?
      && Open(t.file, home, now, ok) == Loaded(saved.value.accounts, saved.value.owners, t.file)
      && (t.history != [] && t.history[|t.history| - 1].saved ==>
            Open(t.file, home, now, ok) == Loaded(t.accounts, t.owners, t.file))
  {
    hide Legal, After, Initial, Ids, Good, Open;
    InitialInv(s);
    RunKeepsInv(s, actions);
    ReopenLoads(After(s, actions), home, now, ok);
    var history := After(s, actions).history;
    assert history[|history| - 1].saved ==> LastSaved(history) == Some(history[|history| - 1].state);
  }

  /** What a SetThreadOwner call does to the owners in memory, and what it returns. */
  lemma SetThreadOwnerInMemory(s: State, thread: string, account: string, ok: bool)
    ensures var a := SetThreadOwner(thread, account, ok);
      (Next(s, a).owners, Succeeds(s, a)) == SetOwner(s.owners, thread, account, ok)
    ensures Next(s, SetThreadOwner(thread, account, ok)).accounts == s.accounts
  {
  }

  predicate FileCurrent(s: State) {
    s.file == Contents(Memory(s))
  }

  /** SetThreadOwner's early return: the owner in memory is already the requested one. */
  predicate Shortcut(s: State, a: Action) {
    a.SetThreadOwner? && a.thread in s.owners && s.owners[a.thread] == a.account
  }

  /** A call that returned nil left the file equal to memory, unless it took the shortcut over a file that was already behind. */
  lemma NilMeansSavedIff(s: State, a: Action)
    requires Succeeds(s, a)
    ensures FileCurrent(Next(s, a)) <==> FileCurrent(s) || !Shortcut(s, a)
  {
    hide Text.TrimSpace, Text.Decimal, IndexOf;
  }

  /** After a failed save the same SetThreadOwner call returns nil although the file lacks the owner. */
  lemma RetryAfterFailedSave(s: State, thread: string, account: string)
    requires Inv(s) && FileCurrent(s) && account in Ids(s.accounts) && thread != "" && account != ""
    requires thread in s.owners ==> s.owners[thread] != account
    ensures var t := Next(s, SetThreadOwner(thread, account, false));
      var u := Next(t, SetThreadOwner(thread, account, true));
      && !Succeeds(s, SetThreadOwner(thread, account, false))
      && Succeeds(t, SetThreadOwner(thread, account, true))
      && u.owners[thread] == account && u.file.state.owners == s.owners && !FileCurrent(u)
  {
    var t := Next(s, SetThreadOwner(thread, account, false));
    assert t.owners != s.owners by { assert thread in t.owners; }
  }

  // ---- The source's form ----

  function Threads(owners: map<string, string>, account: string): set<string> {
    set t | t in owners && owners[t] == account
  }

  class RoutingStore {
    var accounts: seq<Account>
    var owners: map<string, string>
    var file: File
    ghost var history: seq<Version>

    ghost function View(): State
      reads this
    {
      State(accounts, owners, file, history)
    }

    /** Open on a directory without a state file, with a save that succeeds. */
    constructor (home: string, now: int)
      ensures Initial(View()) && Inv(View())
      ensures accounts == [Account("primary", "Primary", home, true, true, now)] && owners == map[]
    {
      accounts, owners := [Primary(home, now)], map[];
      file := Contents(Persisted(STATE_VERSION, [Primary(home, now)], map[]));
      history := [Version(Persisted(STATE_VERSION, [Primary(home, now)], map[]), true)];
      new;
      assert Open(Missing, home, now, true) == Loaded(accounts, owners, file);
      InitialInv(View());
    }

    /** Open on a directory with the state file another store left. */
    constructor Reopened(ghost earlier: State, file: File, home: string, now: int, ok: bool)
      requires Inv(earlier) && earlier.file == file
      ensures View() == Next(earlier, Action.Reopen(home, now, ok)) && Inv(View())
    {
      ReopenLoads(earlier, home, now, ok);
      accounts, owners := file.state.accounts, file.state.owners;
      this.file := file;
      history := earlier.history + [Version(file.state, true)];
    }

    method SaveLocked(ok: bool) returns (saved: bool)
      modifies this`file, this`history
      ensures file == Saved(old(file), accounts, owners, ok) && saved == ok
      ensures history == old(history) + [Version(Persisted(STATE_VERSION, accounts, owners), ok)]
    {
      history := history + [Version(Persisted(STATE_VERSION, accounts, owners), ok)];
      if ok {
        file := Contents(Persisted(STATE_VERSION, accounts, owners));
      }
      saved := ok;
    }

    method AddAccount(title: string, id: string, home: string, now: int, ok: bool) returns (r: Option<Account>)
      requires Inv(View()) && Enabled(View(), Action.AddAccount(title, id, home, now, ok))
      modifies this
      ensures View() == Next(old(View()), Action.AddAccount(title, id, home, now, ok)) && Inv(View())
      ensures r == if ok then Find(accounts, id) else None
    {
      hide Inv, Text.TrimSpace, Text.Decimal, IndexOf, Find, Ids;
      NextKeepsInv(View(), Action.AddAccount(title, id, home, now, ok));
      var shown := Text.TrimSpace(title);
      if shown == "" {
        shown := "Subscription " + Text.Decimal(|accounts| + 1);
      }
      var account := Account(id, shown, home, true, false, now);
      accounts := accounts + [account];
      var saved := SaveLocked(ok);
      NewFound(old(accounts), account);
      r := if saved then Some(account) else None;
    }

    /** The changes UpdateAccount makes to the record it found. */
    method UpdateAt(index: nat, trimmed: Option<string>, enabled: Option<bool>)
      requires index < |accounts|
      modifies this`accounts
      ensures accounts == old(accounts)[index := old(accounts)[index].(
        title := if trimmed.Some? then trimmed.value else old(accounts)[index].title,
        enabled := if enabled.Some? then enabled.value else old(accounts)[index].enabled)]
    {
      if trimmed.Some? {
        accounts := accounts[index := accounts[index].(title := trimmed.value)];
      }
      if enabled.Some? {
        accounts := accounts[index := accounts[index].(enabled := enabled.value)];
      }
    }

    method UpdateAccount(id: string, title: Option<string>, enabled: Option<bool>, ok: bool) returns (r: Option<Account>)
      requires Inv(View())
      modifies this
      ensures View() == Next(old(View()), Action.UpdateAccount(id, title, enabled, ok)) && Inv(View())
      ensures r.Some? <==> Succeeds(old(View()), Action.UpdateAccount(id, title, enabled, ok))
      ensures r.Some? ==> r == Find(accounts, id)
    {
      hide Text.TrimSpace, Text.Decimal, IndexOf, Inv, Open, Ids;
      ghost var was := View();
      NextKeepsInv(was, Action.UpdateAccount(id, title, enabled, ok));
      for index := 0 to |accounts|
        invariant View() == was
        invariant forall k :: 0 <= k < index ==> accounts[k].id != id
      {
        if accounts[index].id != id {
          continue;
        }
        IndexOfFirst(accounts, id, index);
        var trimmed: Option<string> := None;
        if title.Some? {
          trimmed := Some(Text.TrimSpace(title.value));
          if trimmed.value == "" {
            return None;
          }
        }
        UpdateAt(index, trimmed, enabled);
        var saved := SaveLocked(ok);
        if !saved {
          return None;
        }
        InvFacts(View());
        FindDistinct(accounts, index);
        return Some(accounts[index]);
      }
      return None;
    }

    method SetThreadOwner(thread: string, account: string, ok: bool) returns (succeeded: bool)
      requires Inv(View()) && Enabled(View(), Action.SetThreadOwner(thread, account, ok))
      modifies this
      ensures View() == Next(old(View()), Action.SetThreadOwner(thread, account, ok)) && Inv(View())
      ensures succeeded == Succeeds(old(View()), Action.SetThreadOwner(thread, account, ok))
      ensures succeeded ==> thread in owners && owners[thread] == account
    {
      hide Inv, Enabled, Text.TrimSpace, Text.Decimal, IndexOf;
      NextKeepsInv(View(), Action.SetThreadOwner(thread, account, ok));
      if thread == "" || account == "" {
        return false;
      }
      if thread in owners && owners[thread] == account {
        return true;
      }
      owners := owners[thread := account];
      succeeded := SaveLocked(ok);
    }

    method ThreadCounts() returns (counts: map<string, nat>)
      ensures Counts(counts, owners)
    {
      hide Counts, Split;
      counts := map[];
      var rest := owners;
      ghost var done: map<string, string> := map[];
      NothingToCount();
      SplitStart(owners);
      while rest != map[]
        invariant Split(owners, done, rest) && Counts(counts, done)
        decreases |rest|
      {
        var thread :| thread in rest;
        var owner := rest[thread];
        SplitStep(owners, done, rest, thread);
        CountOneMore(counts, done, thread, owner);
        counts := counts[owner := (if owner in counts then counts[owner] else 0) + 1];
        done := done[thread := owner];
        rest := rest - {thread};
      }
      SplitEnd(owners, done);
    }
  }

  ghost predicate Split(whole: map<string, string>, done: map<string, string>, rest: map<string, string>) {
    && (forall t :: t in whole <==> t in done || t in rest)
    && (forall t :: t in done ==> t !in rest && whole[t] == done[t])
    && (forall t :: t in rest ==> whole[t] == rest[t])
  }

  lemma SplitStart(whole: map<string, string>)
    ensures Split(whole, map[], whole)
  {
  }

  lemma SplitStep(whole: map<string, string>, done: map<string, string>, rest: map<string, string>, thread: string)
    requires Split(whole, done, rest) && thread in rest
    ensures thread !in done && Split(whole, done[thread := rest[thread]], rest - {thread}) && |rest - {thread}| < |rest|
  {
    assert (rest - {thread}).Keys == rest.Keys - {thread};
  }

  lemma SplitEnd(whole: map<string, string>, done: map<string, string>)
    requires Split(whole, done, map[])
    ensures done == whole
  {
  }

  /** `counts` lists exactly the accounts that own threads, each with the number it owns. */
  ghost predicate Counts(counts: map<string, nat>, owners: map<string, string>) {
    && (forall account :: account in counts <==> Threads(owners, account) != {})
    && forall account :: account in counts ==> counts[account] == |Threads(owners, account)|
  }

  lemma NothingToCount()
    ensures Counts(map[], map[])
  {
  }

  lemma {:induction false} IndexOfFirst(accounts: seq<Account>, id: string, i: nat)
    requires i < |accounts| && accounts[i].id == id && forall k :: 0 <= k < i ==> accounts[k].id != id
    ensures IndexOf(accounts, id) == Some(i)
  {
    var r := IndexOf(accounts, id);
    assert r.Some?;
  }

  lemma CountOneMore(counts: map<string, nat>, owners: map<string, string>, thread: string, owner: string)
    requires Counts(counts, owners) && thread !in owners
    ensures Counts(counts[owner := (if owner in counts then counts[owner] else 0) + 1], owners[thread := owner])
  {
    var after := owners[thread := owner];
    assert Threads(after, owner) == Threads(owners, owner) + {thread};
    forall a | a != owner ensures Threads(after, a) == Threads(owners, a) {
    }
    assert Threads(owners, owner) == {} ==> |Threads(owners, owner)| == 0;
  }
}
