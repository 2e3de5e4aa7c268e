/** The merged thread list of internal/mux/thread_list.go. */
module ThreadList {
  import opened Accounts
  import opened Collections
  import StableSort
  import Store
  import Sums

  /** A listed thread: the fields the code reads, when they have the expected JSON type, and the rest. */
  datatype Thread = Thread(id: Option<string>, updatedAt: Option<real>, createdAt: Option<real>, rest: string)

  datatype Reply = Failed | Undecodable | Page(data: seq<Thread>, next: Option<string>)

  // ---- Pagination ----

  /** The cursor a reply asks to continue with, "" when there is none. */
  function NextCursor(r: Reply): string {
    if r.Page? && r.next.Some? then r.next.value else ""
  }

  function Data(r: Reply): seq<Thread> {
    if r.Page? then r.data else []
  }

  /** All cursors the child ever hands out come from a finite set. */
  ghost predicate Finite(child: string -> Reply, cursors: set<string>) {
    forall c :: NextCursor(child(c)) != "" ==> NextCursor(child(c)) in cursors
  }

  /** The cursors requested from `cursor` on, "" standing for the null cursor of the first request.
      No cursor is requested twice, so a function describes any child. */
  ghost function Requested(child: string -> Reply, cursors: set<string>, cursor: string, seen: set<string>): seq<string>
    requires Finite(child, cursors)
    decreases |cursors - seen|
  {
    var next := NextCursor(child(cursor));
    if next == "" || next in seen then [cursor]
    else
      Shrinks(cursors, seen, next);
      [cursor] + Requested(child, cursors, next, seen + {next})
  }

  lemma Shrinks(cursors: set<string>, seen: set<string>, next: string)
    requires next in cursors && next !in seen
    ensures |cursors - (seen + {next})| < |cursors - seen|
  {
    assert cursors - (seen + {next}) == (cursors - seen) - {next};
  }

  ghost function Pages(child: string -> Reply, requested: seq<string>): seq<Thread> {
    if requested == [] then [] else Data(child(requested[0])) + Pages(child, requested[1..])
  }

  /** The threads a listing yields from `cursor` on. */
  ghost function Remaining(child: string -> Reply, cursors: set<string>, cursor: string, seen: set<string>): seq<Thread>
    requires Finite(child, cursors)
  {
    Pages(child, Requested(child, cursors, cursor, seen))
  }

  /** listAllThreads. */
  method ListAllThreads(child: string -> Reply, ghost cursors: set<string>) returns (threads: seq<Thread>)
    requires Finite(child, cursors)
    ensures threads == Pages(child, Requested(child, cursors, "", {}))
  {
    hide Remaining, Finite, Pages, Requested;
    threads := [];
    var seen: set<string> := {};
    var cursor := "";
    ghost var all := Remaining(child, cursors, "", {});
    assert all == Pages(child, Requested(child, cursors, "", {})) by { RemainingIsPages(child, cursors); }
    while true
      invariant threads + Remaining(child, cursors, cursor, seen) == all
      decreases |cursors - seen|
    {
      OnePage(child, cursors, cursor, seen, threads);
      var reply := child(cursor);
      if reply.Failed? {
        return threads;
      }
      if reply.Undecodable? {
        return threads;
      }
      threads := threads + reply.data;
      if reply.next.None? || reply.next.value == "" {
        return threads;
      }
      cursor := reply.next.value;
      if cursor in seen {
        return threads;
      }
      Shrinks(cursors, seen, cursor);
      seen := seen + {cursor};
    }
  }

  lemma RemainingIsPages(child: string -> Reply, cursors: set<string>)
    requires Finite(child, cursors)
    ensures Remaining(child, cursors, "", {}) == Pages(child, Requested(child, cursors, "", {}))
  {
  }

  /** One request: its data, then what remains from the next cursor unless the walk stops. */
  lemma OnePage(child: string -> Reply, cursors: set<string>, cursor: string, seen: set<string>, threads: seq<Thread>)
    requires Finite(child, cursors)
    ensures var next := NextCursor(child(cursor));
      && (next != "" ==> next in cursors)
      && threads + Remaining(child, cursors, cursor, seen) ==
         if next == "" || next in seen then threads + Data(child(cursor))
         else threads + Data(child(cursor)) + Remaining(child, cursors, next, seen + {next})
    ensures !child(cursor).Page? ==> threads + Data(child(cursor)) == threads
  {
    var r := Requested(child, cursors, cursor, seen);
    var next := NextCursor(child(cursor));
    var data := Data(child(cursor));
    if next == "" || next in seen {
      assert r == [cursor] && r[1..] == [];
      assert Remaining(child, cursors, cursor, seen) == data + Pages(child, r[1..]) == data;
    } else {
      var rest := Remaining(child, cursors, next, seen + {next});
      assert r[1..] == Requested(child, cursors, next, seen + {next});
      assert (threads + data) + rest == threads + (data + rest);
    }
  }

  /** Each cursor is requested at most once, each comes from the reply before it, and the walk stops only at an
      error, at the last page, or at a cursor already requested. */
  ghost predicate IsWalk(child: string -> Reply, r: seq<string>, cursor: string, seen: set<string>) {
    && |r| > 0 && r[0] == cursor && Distinct(r)
    && (forall i :: 0 < i < |r| ==> r[i] !in seen && r[i] != "" && r[i] == NextCursor(child(r[i - 1])))
    && (var last := NextCursor(child(r[|r| - 1])); last == "" || last in seen || last in r)
  }

  lemma WalkExtends(child: string -> Reply, rest: seq<string>, cursor: string, next: string, seen: set<string>)
    requires cursor == "" || cursor in seen
    requires next == NextCursor(child(cursor)) && next != "" && next !in seen
    requires IsWalk(child, rest, next, seen + {next})
    ensures IsWalk(child, [cursor] + rest, cursor, seen)
  {
    var r := [cursor] + rest;
    forall i | 0 < i < |r| ensures r[i] !in seen && r[i] != "" && r[i] == NextCursor(child(r[i - 1])) && r[i] != cursor {
      assert r[i] == rest[i - 1];
      if i > 1 {
        assert r[i - 1] == rest[i - 2];
        assert rest[i - 1] !in seen + {next};
      }
    }
    var last := NextCursor(child(rest[|rest| - 1]));
    assert r[|r| - 1] == rest[|rest| - 1];
    assert next == rest[0] && forall x :: x in rest ==> x in r;
  }

  lemma {:induction false} RequestedIsWalk(child: string -> Reply, cursors: set<string>, cursor: string, seen: set<string>)
    requires Finite(child, cursors) && (cursor == "" || cursor in seen)
    ensures IsWalk(child, Requested(child, cursors, cursor, seen), cursor, seen)
    decreases |cursors - seen|
  {
    var next := NextCursor(child(cursor));
    if next != "" && next !in seen {
      hide IsWalk;
      Shrinks(cursors, seen, next);
      RequestedIsWalk(child, cursors, next, seen + {next});
      WalkExtends(child, Requested(child, cursors, next, seen + {next}), cursor, next, seen);
    }
  }

  // ---- Merging ----

  /** One account's finished listing. */
  datatype Listing = Listing(accountID: string, threads: seq<Thread>)

  /** A thread id with the account that listed it. */
  datatype Entry = Entry(thread: string, account: string)

  function Entries(account: string, threads: seq<Thread>): seq<Entry> {
    if threads == [] then []
    else
      var last := threads[|threads| - 1];
      Entries(account, threads[..|threads| - 1]) + (if last.id.Some? then [Entry(last.id.value, account)] else [])
  }

  function AllEntries(listings: seq<Listing>): seq<Entry> {
    if listings == [] then []
    else
      var last := listings[|listings| - 1];
      AllEntries(listings[..|listings| - 1]) + Entries(last.accountID, last.threads)
  }

  function AllThreads(listings: seq<Listing>): seq<Thread> {
    if listings == [] then [] else AllThreads(listings[..|listings| - 1]) + listings[|listings| - 1].threads
  }

  /** The owners after recording the entries in order; a failed save does not change what memory holds. */
  function RecordAll(owners: map<string, string>, entries: seq<Entry>): map<string, string> {
    if entries == [] then owners
    else
      var last := entries[|entries| - 1];
      SetOwner(RecordAll(owners, entries[..|entries| - 1]), last.thread, last.account, true).0
  }

  function NumericField(t: Thread): real {
    if t.updatedAt.Some? then t.updatedAt.value
    else if t.createdAt.Some? then t.createdAt.value
    else 0.0
  }

  predicate Newer(l: Thread, r: Thread) {
    NumericField(l) > NumericField(r)
  }

  method SortThreads(threads: array<Thread>)
    modifies threads
    ensures threads[..] == StableSort.Sort(old(threads[..]), Newer)
  {
    StableSort.InsertionSort(threads, Newer);
  }

  lemma {:induction false} RecordAllConcat(owners: map<string, string>, a: seq<Entry>, b: seq<Entry>)
    ensures RecordAll(owners, a + b) == RecordAll(RecordAll(owners, a), b)
  {
    hide SetOwner;
    if b == [] {
      assert a + b == a;
    } else {
      RecordAllConcat(owners, a, b[..|b| - 1]);
      assert (a + b)[..|a + b| - 1] == a + b[..|b| - 1];
    }
  }

  /** The inner loop of the merge: record one account as the owner of everything it listed. */
  method RecordListing(store: Store.RoutingStore, listing: Listing, saves: int -> bool, start: int) returns (calls: int)
    requires Store.Inv(store.View()) && listing.accountID in Ids(store.accounts)
    modifies store
    ensures Store.Inv(store.View()) && store.accounts == old(store.accounts)
    ensures store.owners == RecordAll(old(store.owners), Entries(listing.accountID, listing.threads))
  {
    hide Store.Inv, Store.Next, Store.Succeeds, Ids, SetOwner, RecordAll, Entries;
    calls := start;
    assert Entries(listing.accountID, listing.threads[..0]) == [] by { EntriesStart(listing.accountID); }
    NothingRecorded(store.owners);
    for j := 0 to |listing.threads|
      invariant Store.Inv(store.View()) && store.accounts == old(store.accounts)
      invariant store.owners == RecordAll(old(store.owners), Entries(listing.accountID, listing.threads[..j]))
    {
      var thread := listing.threads[j];
      ghost var earlier := Entries(listing.accountID, listing.threads[..j]);
      EntriesNext(listing.accountID, listing.threads, j);
      if thread.id.Some? {
        RecordEntry(store.View(), old(store.owners), earlier, Entry(thread.id.value, listing.accountID), saves(calls));
        var ignored := store.SetThreadOwner(thread.id.value, listing.accountID, saves(calls));
        calls := calls + 1;
      } else {
        assert earlier + [] == earlier;
      }
    }
    assert listing.threads[..|listing.threads|] == listing.threads;
  }

  lemma EntriesStart(account: string)
    ensures Entries(account, []) == []
  {
  }

  lemma EntriesNext(account: string, threads: seq<Thread>, j: nat)
    requires j < |threads|
    ensures Entries(account, threads[..j + 1]) == Entries(account, threads[..j]) +
            (if threads[j].id.Some? then [Entry(threads[j].id.value, account)] else [])
  {
    assert threads[..j + 1][..j] == threads[..j];
  }

  lemma NothingRecorded(owners: map<string, string>)
    ensures RecordAll(owners, []) == owners
  {
  }

  /** The merge of aggregateThreadList, with the listings in order of arrival; `saves` says which saves succeed. */
  method AggregateThreadList(store: Store.RoutingStore, listings: seq<Listing>, saves: int -> bool)
    returns (merged: seq<Thread>)
    requires Store.Inv(store.View())
    requires forall l :: l in listings ==> l.accountID in Ids(store.accounts)
    modifies store
    ensures Store.Inv(store.View()) && store.accounts == old(store.accounts)
    ensures store.owners == RecordAll(old(store.owners), AllEntries(listings))
    ensures merged == StableSort.Sort(AllThreads(listings), Newer)
  {
    hide Store.Inv, Ids, RecordAll, Entries;
    var threads: seq<Thread> := [];
    var calls := 0;
    NothingRecorded(store.owners);
    for i := 0 to |listings|
      invariant Store.Inv(store.View()) && store.accounts == old(store.accounts)
      invariant threads == AllThreads(listings[..i])
      invariant store.owners == RecordAll(old(store.owners), AllEntries(listings[..i]))
    {
      var listing := listings[i];
      assert listings[..i + 1][..i] == listings[..i];
      RecordAllConcat(old(store.owners), AllEntries(listings[..i]), Entries(listing.accountID, listing.threads));
      calls := RecordListing(store, listing, saves, calls);
      threads := threads + listing.threads;
    }
    assert listings[..|listings|] == listings;
    var sorting := new Thread[|threads|](k requires 0 <= k < |threads| => threads[k]);
    assert sorting[..] == threads;
    SortThreads(sorting);
    merged := sorting[..];
  }

  lemma RecordEntry(s: Store.State, owners: map<string, string>, entries: seq<Entry>, entry: Entry, ok: bool)
    requires s.owners == RecordAll(owners, entries) && entry.account in Ids(s.accounts)
    ensures var a := Store.Action.SetThreadOwner(entry.thread, entry.account, ok);
      && Store.Enabled(s, a) && Store.Next(s, a).accounts == s.accounts
      && Store.Next(s, a).owners == RecordAll(owners, entries + [entry])
  {
    Store.SetThreadOwnerInMemory(s, entry.thread, entry.account, ok);
    assert (entries + [entry])[..|entries|] == entries;
  }

  // ---- What the merged reply and the owners are ----

  /** The time a thread is listed under: its last update when it has one, else its creation, else zero. */
  predicate StampedAt(t: Thread, at: real) {
    match (t.updatedAt, t.createdAt)
    case (Some(updated), _) => at == updated
    case (None, Some(created)) => at == created
    case (None, None) => at == 0.0
  }

  /** How often `t` occurs in a listing, and in the data of a reply. */
  function Listed(t: Thread): Listing -> int {
    (l: Listing) => multiset(l.threads)[t]
  }

  function Delivered(child: string -> Reply, t: Thread): string -> int {
    (cursor: string) => match child(cursor) case Page(data, _) => multiset(data)[t] case _ => 0
  }

  /** The merged reply holds every thread as often as all listings together, in non-increasing order of time stamp, and
      those with the same stamp in order of arrival. */
  lemma MergedReply(listings: seq<Listing>)
    ensures var merged := StableSort.Sort(AllThreads(listings), Newer);
      && (forall t: Thread :: multiset(merged)[t] == Sums.SumBy(listings, Listed(t)))
      && (forall i, j, x, y :: 0 <= i < j < |merged| && StampedAt(merged[i], x) && StampedAt(merged[j], y) ==> x >= y)
      && (forall x :: StableSort.Select(merged, Stamped(x)) == StableSort.Select(AllThreads(listings), Stamped(x)))
  {
    hide AllThreads;
    var all := AllThreads(listings);
    StableSort.SortPermutes(all, Newer);
    NewerWeak();
    StableSort.SortOrders(all, Newer);
    forall t: Thread ensures multiset(all)[t] == Sums.SumBy(listings, Listed(t)) {
      AllThreadsCount(listings, t);
    }
    forall x ensures StableSort.Select(StableSort.Sort(all, Newer), Stamped(x)) == StableSort.Select(all, Stamped(x)) {
      StableSort.SortStable(all, Newer, Stamped(x));
    }
  }

  function Stamped(x: real): Thread -> bool {
    (t: Thread) => StampedAt(t, x)
  }

  lemma {:induction false} AllThreadsCount(listings: seq<Listing>, t: Thread)
    ensures multiset(AllThreads(listings))[t] == Sums.SumBy(listings, Listed(t))
  {
    if listings != [] {
      AllThreadsCount(listings[..|listings| - 1], t);
    }
  }

  /** A listing holds every thread as often as the pages it requested. */
  lemma {:induction false} PagesCount(child: string -> Reply, requested: seq<string>, t: Thread)
    ensures multiset(Pages(child, requested))[t] == Sums.SumBy(requested, Delivered(child, t))
  {
    if requested != [] {
      var first, rest := requested[0], requested[1..];
      PagesCount(child, rest, t);
      assert requested == [first] + rest;
      Sums.SumByConcat([first], rest, Delivered(child, t));
      assert [first] == [] + [first];
      Sums.SumBySnoc([], first, Delivered(child, t));
    }
  }

  /** The order is a strict weak one, so any stable sort Go uses gives this reply, whatever its length. */
  lemma NewerWeak()
    ensures StableSort.Weak(Newer)
  {
  }

  /** The last account in arrival order that listed `thread`. */
  function LastLister(entries: seq<Entry>, thread: string): Option<string> {
    if entries == [] then None
    else
      var last := entries[|entries| - 1];
      if last.thread == thread then Some(last.account) else LastLister(entries[..|entries| - 1], thread)
  }

  /** Every non-empty listed id ends up with the last account that listed it; all other owners are unchanged. */
  lemma {:induction false} OwnersAfterListing(owners: map<string, string>, entries: seq<Entry>, thread: string)
    requires forall e :: e in entries ==> e.account != ""
    ensures var after, last := RecordAll(owners, entries), LastLister(entries, thread);
      if last.Some? && thread != "" then thread in after && after[thread] == last.value
      else (thread in after <==> thread in owners) && (thread in owners ==> after[thread] == owners[thread])
  {
    if entries != [] {
      assert entries[|entries| - 1] in entries;
      OwnersAfterListing(owners, entries[..|entries| - 1], thread);
    }
  }

  lemma {:induction false} ListerListed(entries: seq<Entry>, thread: string)
    ensures LastLister(entries, thread).Some? ==> Entry(thread, LastLister(entries, thread).value) in entries
    ensures LastLister(entries, thread).None? ==> forall e :: e in entries ==> e.thread != thread
  {
    if entries != [] {
      ListerListed(entries[..|entries| - 1], thread);
      assert entries == entries[..|entries| - 1] + [entries[|entries| - 1]];
    }
  }

  predicate Lists(l: Listing, thread: string) {
    exists i :: 0 <= i < |l.threads| && l.threads[i].id == Some(thread)
  }

  /** Whether `thread` still has its owner once the listings have arrived in this order. */
  ghost predicate Keeps(owners: map<string, string>, listings: seq<Listing>, thread: string)
    requires thread in owners
  {
    var after := RecordAll(owners, AllEntries(listings));
    thread in after && after[thread] == owners[thread]
  }

  lemma LastListerSnoc(entries: seq<Entry>, e: Entry, thread: string)
    ensures LastLister(entries + [e], thread) == if e.thread == thread then Some(e.account) else LastLister(entries, thread)
  {
    assert (entries + [e])[..|entries|] == entries;
  }

  lemma {:induction false} LastListerOf(entries: seq<Entry>, l: Listing, thread: string)
    ensures LastLister(entries + Entries(l.accountID, l.threads), thread) ==
            if Lists(l, thread) then Some(l.accountID) else LastLister(entries, thread)
    decreases |l.threads|
  {
    if l.threads == [] {
      assert entries + [] == entries;
    } else {
      var init, last := l.(threads := l.threads[..|l.threads| - 1]), l.threads[|l.threads| - 1];
      LastListerOf(entries, init, thread);
      ListsSnoc(l, thread);
      hide Lists, LastLister;
      var es := Entries(init.accountID, init.threads);
      if last.id.Some? {
        var e := Entry(last.id.value, l.accountID);
        assert entries + (es + [e]) == (entries + es) + [e];
        LastListerSnoc(entries + es, e, thread);
      } else {
        assert es + [] == es;
      }
    }
  }

  lemma ListsSnoc(l: Listing, thread: string)
    requires l.threads != []
    ensures var n := |l.threads| - 1;
      Lists(l, thread) <==> l.threads[n].id == Some(thread) || Lists(l.(threads := l.threads[..n]), thread)
  {
    var init := l.(threads := l.threads[..|l.threads| - 1]);
    if Lists(init, thread) {
      var i :| 0 <= i < |init.threads| && init.threads[i].id == Some(thread);
      assert l.threads[i].id == Some(thread);
    }
    if Lists(l, thread) {
      var i :| 0 <= i < |l.threads| && l.threads[i].id == Some(thread);
      assert i < |init.threads| ==> init.threads[i].id == Some(thread);
    }
  }

  lemma LastListerOfLast(listings: seq<Listing>, l: Listing, thread: string)
    ensures LastLister(AllEntries(listings + [l]), thread) ==
            if Lists(l, thread) then Some(l.accountID) else LastLister(AllEntries(listings), thread)
  {
    hide Lists, LastLister;
    assert (listings + [l])[..|listings|] == listings;
    LastListerOf(AllEntries(listings), l, thread);
  }

  /** The last lister is the account of a listing that holds the thread. */
  lemma {:induction false} LastListerLists(listings: seq<Listing>, thread: string)
    ensures var last := LastLister(AllEntries(listings), thread);
      last.Some? ==> exists l :: l in listings && Lists(l, thread) && l.accountID == last.value
  {
    if listings != [] {
      hide Lists, LastLister;
      var init, l := listings[..|listings| - 1], listings[|listings| - 1];
      LastListerLists(init, thread);
      assert listings == init + [l];
      LastListerOfLast(init, l, thread);
    }
  }

  /** Of the accounts that list a thread the one that answers last becomes its owner; a thread nobody lists keeps its
      owner, or keeps having none. */
  lemma {:induction false} LastToAnswerOwns(owners: map<string, string>, listings: seq<Listing>, thread: string, n: nat, j: nat)
    requires thread != "" && n <= |listings| && forall l :: l in listings ==> l.accountID != ""
    requires n > 0 ==> j < |listings[n - 1].threads| && listings[n - 1].threads[j].id == Some(thread)
    requires forall i, k :: n <= i < |listings| && 0 <= k < |listings[i].threads| ==> listings[i].threads[k].id != Some(thread)
    ensures var after := RecordAll(owners, AllEntries(listings));
      if n == 0 then (thread in after <==> thread in owners) && (thread in owners ==> after[thread] == owners[thread])
      else thread in after && after[thread] == listings[n - 1].accountID
  {
    hide LastLister, RecordAll, AllEntries;
    LastListerIs(listings, thread, n, j);
    AllEntriesNamed(listings);
    OwnersAfterListing(owners, AllEntries(listings), thread);
  }

  lemma {:induction false} LastListerIs(listings: seq<Listing>, thread: string, n: nat, j: nat)
    requires n <= |listings|
    requires n > 0 ==> j < |listings[n - 1].threads| && listings[n - 1].threads[j].id == Some(thread)
    requires forall i, k :: n <= i < |listings| && 0 <= k < |listings[i].threads| ==> listings[i].threads[k].id != Some(thread)
    ensures LastLister(AllEntries(listings), thread) == if n == 0 then None else Some(listings[n - 1].accountID)
  {
    if listings != [] {
      var init, l := listings[..|listings| - 1], listings[|listings| - 1];
      assert listings == init + [l];
      assert n == |listings| <==> Lists(l, thread);
      if n < |listings| {
        LastListerIs(init, thread, n, j);
      }
      LastListerOfLast(init, l, thread);
    }
  }

  lemma {:induction false} EntriesOf(account: string, threads: seq<Thread>)
    ensures forall e :: e in Entries(account, threads) ==> e.account == account
  {
    if threads != [] {
      EntriesOf(account, threads[..|threads| - 1]);
    }
  }

  lemma {:induction false} AllEntriesNamed(listings: seq<Listing>)
    requires forall l :: l in listings ==> l.accountID != ""
    ensures forall e :: e in AllEntries(listings) ==> e.account != ""
  {
    if listings != [] {
      var last := listings[|listings| - 1];
      AllEntriesNamed(listings[..|listings| - 1]);
      EntriesOf(last.accountID, last.threads);
      assert last in listings;
    }
  }

  lemma KeepsIff(owners: map<string, string>, listings: seq<Listing>, thread: string)
    requires thread != "" && thread in owners && forall l :: l in listings ==> l.accountID != ""
    ensures var last := LastLister(AllEntries(listings), thread);
      Keeps(owners, listings, thread) <==> last.None? || last.value == owners[thread]
  {
    hide LastLister, RecordAll, AllEntries;
    AllEntriesNamed(listings);
    OwnersAfterListing(owners, AllEntries(listings), thread);
  }

  lemma SameListings(p: seq<Listing>, listings: seq<Listing>)
    requires multiset(p) == multiset(listings)
    ensures forall l :: l in p <==> l in listings
  {
    forall l ensures l in p <==> l in listings {
      assert l in p <==> l in multiset(p);
      assert l in listings <==> l in multiset(listings);
    }
  }

  /** Listing overwrites unconditionally, and nobody knows which account answers last: a thread is sure to keep its
      owner, whatever the order of arrival, exactly when only its owner lists it. */
  lemma StickyIff(owners: map<string, string>, listings: seq<Listing>, thread: string)
    requires thread != "" && thread in owners && forall l :: l in listings ==> l.accountID != ""
    ensures (forall p: seq<Listing> :: multiset(p) == multiset(listings) ==> Keeps(owners, p, thread)) <==>
            (forall l :: l in listings && Lists(l, thread) ==> l.accountID == owners[thread])
  {
    hide Lists, Keeps, LastLister, AllEntries;
    if forall l :: l in listings && Lists(l, thread) ==> l.accountID == owners[thread] {
      forall p: seq<Listing> | multiset(p) == multiset(listings) ensures Keeps(owners, p, thread) {
        SameListings(p, listings);
        LastListerLists(p, thread);
        KeepsIff(owners, p, thread);
      }
    }
    if forall p: seq<Listing> :: multiset(p) == multiset(listings) ==> Keeps(owners, p, thread) {
      forall l | l in listings && Lists(l, thread) ensures l.accountID == owners[thread] {
        var p := ListerLast(owners, listings, thread, l);
        assert Keeps(owners, p, thread);
      }
    }
  }

  /** The order of arrival in which `l` comes last. */
  lemma ListerLast(owners: map<string, string>, listings: seq<Listing>, thread: string, l: Listing) returns (p: seq<Listing>)
    requires thread != "" && thread in owners && forall x :: x in listings ==> x.accountID != ""
    requires l in listings && Lists(l, thread)
    ensures multiset(p) == multiset(listings) && (Keeps(owners, p, thread) ==> l.accountID == owners[thread])
  {
    hide Lists, Keeps, LastLister, AllEntries;
    var i :| 0 <= i < |listings| && listings[i] == l;
    var rest := Sums.Without(listings, i);
    Sums.WithoutMultiset(listings, i);
    p := rest + [l];
    assert multiset(p) == multiset(listings);
    SameListings(p, listings);
    KeepsIff(owners, p, thread);
    LastListerOfLast(rest, l, thread);
  }

  /** A former owner that still lists a thread and answers last takes it back. */
  lemma FormerOwnerTakesBack(thread: string, former: string, owner: string)
    requires thread != "" && former != "" && owner != "" && former != owner
    ensures thread in RecordAll(map[thread := owner], [Entry(thread, owner), Entry(thread, former)])
    ensures RecordAll(map[thread := owner], [Entry(thread, owner), Entry(thread, former)])[thread] == former
  {
    var entries := [Entry(thread, owner), Entry(thread, former)];
    assert entries[|entries| - 1] == Entry(thread, former);
    OwnersAfterListing(map[thread := owner], entries, thread);
  }
}
