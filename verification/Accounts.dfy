/** Optional values and the account records of internal/state/store.go. */
module Accounts {
  datatype Option<+T> = None | Some(value: T)

  datatype Account = Account(
    id: string, title: string, codexHome: string, enabled: bool, controller: bool, createdAt: int)

  /** Store.Account: the first record with this id. */
  function Find(accounts: seq<Account>, id: string): (r: Option<Account>)
    ensures r.Some? <==> exists i :: 0 <= i < |accounts| && accounts[i].id == id
    ensures r.Some? ==> r.value in accounts && r.value.id == id
  {
    if accounts == [] then None
    else if accounts[0].id == id then Some(accounts[0])
    else Find(accounts[1..], id)
  }

  /** With distinct ids a record is what its id finds. */
  lemma {:induction false} FindDistinct(accounts: seq<Account>, k: nat)
    requires k < |accounts| && forall i, j :: 0 <= i < j < |accounts| ==> accounts[i].id != accounts[j].id
    ensures Find(accounts, accounts[k].id) == Some(accounts[k])
  {
    if k > 0 {
      FindDistinct(accounts[1..], k - 1);
    }
  }

  /** Store.Controller: the first controller, else the first account. */
  function Controller(accounts: seq<Account>): (r: Option<Account>)
    ensures r.None? <==> accounts == []
    ensures r.Some? ==> r.value in accounts
    ensures r.Some? ==>
      if exists i :: 0 <= i < |accounts| && accounts[i].controller then r.value.controller else r.value == accounts[0]
  {
    var c := FirstController(accounts);
    if c.Some? then c else if accounts == [] then None else Some(accounts[0])
  }

  function FirstController(accounts: seq<Account>): (r: Option<Account>)
    ensures r.Some? <==> exists i :: 0 <= i < |accounts| && accounts[i].controller
    ensures r.Some? ==> r.value in accounts && r.value.controller
  {
    if accounts == [] then None
    else if accounts[0].controller then Some(accounts[0])
    else FirstController(accounts[1..])
  }

  function Ids(accounts: seq<Account>): (r: set<string>)
    ensures forall i :: 0 <= i < |accounts| ==> accounts[i].id in r
    ensures forall id :: id in r <==> exists i :: 0 <= i < |accounts| && accounts[i].id == id
  {
    set i | 0 <= i < |accounts| :: accounts[i].id
  }

  /** Store.SetThreadOwner in memory; the flag says whether it returned nil. */
  function SetOwner(owners: map<string, string>, thread: string, account: string, saved: bool): (map<string, string>, bool) {
    if thread == "" || account == "" then (owners, false)
    else if thread in owners && owners[thread] == account then (owners, true)
    else (owners[thread := account], saved)
  }
}
