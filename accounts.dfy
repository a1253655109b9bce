/**
 * The watched accounts (app/api/accounts/route.ts): the handle a request
 * names goes through `NormalizeHandle`, then `POST` appends an account
 * unless one has exactly that handle, and `DELETE` drops every account
 * with it. `parseUrl` stands for `new URL(...)`, as in `NormalizeHandle`.
 */
module AccountsRoute {
  import opened Base
  import opened Text
  import opened Seqs
  import opened Db
  import opened Normalize

  /** The handle a request names, or nothing when it normalises to empty (the 400 answer). */
  function HandleParam(raw: string, parseUrl: string -> Option<string>): (h: Option<string>)
    ensures h.None? <==> NormalizeHandle(raw, parseUrl) == ""
    ensures AllSpace(raw) ==> h.None?
    ensures h.Some? ==> h.value == NormalizeHandle(raw, parseUrl) && Trimmed(h.value)
  {
    var handle := NormalizeHandle(raw, parseUrl);
    if handle == "" then None else Some(handle)
  }

  /** Some account has exactly this handle; the comparison is case-sensitive. */
  predicate HasHandle(accounts: seq<Account>, handle: string) {
    exists i :: 0 <= i < |accounts| && accounts[i].handle == handle
  }

  /** No two accounts share a handle. */
  ghost predicate UniqueHandles(accounts: seq<Account>) {
    forall i, j :: 0 <= i < j < |accounts| ==> accounts[i].handle != accounts[j].handle
  }

  /** `accounts.find(a => a.handle === handle)`: the first account with exactly that handle. */
  function FindAccount(accounts: seq<Account>, handle: string): (r: Option<Account>)
    ensures r.None? <==> !HasHandle(accounts, handle)
    ensures r.Some? ==> r.value in accounts && r.value.handle == handle
    ensures r.Some? ==> exists i ::
      && 0 <= i < |accounts| && accounts[i] == r.value && accounts[i].handle == handle
      && (forall j :: 0 <= j < i ==> accounts[j].handle != handle)
    decreases |accounts|
  {
    if accounts == [] then None
    else if accounts[0].handle == handle then Some(accounts[0])
    else
      assert forall i :: 0 < i < |accounts| ==> accounts[i] == accounts[1..][i - 1];
      FindAccount(accounts[1..], handle)
  }

  /**
   * The updater of `POST`: appends an enabled account for `handle` unless one
   * has that handle; its `lastSeenId` is looked up among the accounts, as the
   * route does.
   */
  function AddAccount(db: DbShape, handle: string): (r: DbShape)
    ensures r.items == db.items && r.keywords == db.keywords
    ensures r.telegramEnabled == db.telegramEnabled && r.settings == db.settings
    ensures HasHandle(db.accounts, handle) ==> r == db
    ensures !HasHandle(db.accounts, handle) ==> |r.accounts| == |db.accounts| + 1 && r.accounts[..|db.accounts|] == db.accounts
  {
    if HasHandle(db.accounts, handle) then db
    else
      var seen := match FindAccount(db.accounts, handle) case None => None case Some(a) => a.lastSeenId;
      db.(accounts := db.accounts + [Account(handle, true, seen, None)])
  }

  function OtherHandle(handle: string): Account -> bool {
    (acc: Account) => acc.handle != handle
  }

  /** The updater of `DELETE`: drops every account with exactly this handle. */
  function RemoveAccount(db: DbShape, handle: string): (r: DbShape)
    ensures r.items == db.items && r.keywords == db.keywords
    ensures r.telegramEnabled == db.telegramEnabled && r.settings == db.settings
    ensures !HasHandle(r.accounts, handle)
    ensures forall i :: 0 <= i < |db.accounts| ==> (db.accounts[i] in r.accounts <==> db.accounts[i].handle != handle)
    ensures forall i :: 0 <= i < |r.accounts| ==> r.accounts[i] in db.accounts
  {
    db.(accounts := Filter(db.accounts, OtherHandle(handle)))
  }

  /**
   * The account `POST` appends is enabled and has never been seen nor
   * checked: the lookup of its `lastSeenId` cannot find anything.
   */
  lemma NewAccountIsFresh(db: DbShape, handle: string)
    requires !HasHandle(db.accounts, handle)
    ensures AddAccount(db, handle).accounts == db.accounts + [Account(handle, true, None, None)]
  {
  }

  /** After `POST`, an account has the handle. */
  lemma AddAccountPresent(db: DbShape, handle: string)
    ensures HasHandle(AddAccount(db, handle).accounts, handle)
  {
    if !HasHandle(db.accounts, handle) {
      assert AddAccount(db, handle).accounts[|db.accounts|].handle == handle;
    }
  }

  /** Unique handles stay unique after `POST`. */
  lemma AddAccountKeepsUniqueHandles(db: DbShape, handle: string)
    requires UniqueHandles(db.accounts)
    ensures UniqueHandles(AddAccount(db, handle).accounts)
  {
    if !HasHandle(db.accounts, handle) {
      var accs := AddAccount(db, handle).accounts;
      forall i, j | 0 <= i < j < |accs|
        ensures accs[i].handle != accs[j].handle
      {
        if j == |db.accounts| {
          assert accs[i] == db.accounts[i];
        }
      }
    }
  }

  /** Handles differing only in case are different accounts. */
  lemma HandlesAreCaseSensitive()
    ensures var db := DbShape([Account("Alice", true, None, None)], [], DefaultKeywords, false, None);
      AddAccount(db, "alice").accounts == [Account("Alice", true, None, None), Account("alice", true, None, None)]
  {
    var db := DbShape([Account("Alice", true, None, None)], [], DefaultKeywords, false, None);
    assert "Alice"[0] != "alice"[0];
    assert !HasHandle(db.accounts, "alice");
  }

  /** Deleting an account that was just added, and was not there before, restores the list. */
  lemma {:induction false} RemoveUndoesAdd(db: DbShape, handle: string)
    requires !HasHandle(db.accounts, handle)
    ensures RemoveAccount(AddAccount(db, handle), handle) == db
  {
    var added := Account(handle, true, None, None);
    NewAccountIsFresh(db, handle);
    FilterConcat(db.accounts, [added], OtherHandle(handle));
    FilterKeepsAll(db.accounts, OtherHandle(handle));
    FilterDropsAll([added], OtherHandle(handle));
  }

  /** `GET /api/accounts`. */
  method Get(store: Store) returns (accounts: seq<Account>)
    modifies store
    ensures accounts == old(store.Current()).accounts
    ensures store.file == Some(Ensured(old(store.file)))
  {
    var db := store.ReadDb();
    accounts := db.accounts;
  }

  /** `POST /api/accounts` with the text of the `handle` field. */
  method Post(store: Store, raw: string, parseUrl: string -> Option<string>) returns (reply: Reply<seq<Account>>)
    modifies store
    ensures NormalizeHandle(raw, parseUrl) == "" ==> reply.BadRequest? && store.file == old(store.file)
    ensures NormalizeHandle(raw, parseUrl) != "" ==>
      var next := AddAccount(old(store.Current()), NormalizeHandle(raw, parseUrl));
      reply == Reply(next.accounts) && store.file == Some(Serialize(next))
  {
    var handle := HandleParam(raw, parseUrl);
    if handle.None? {
      return BadRequest("handle is required");
    }
    var h := handle.value;
    var next := store.UpdateDb(db => AddAccount(db, h));
    reply := Reply(next.accounts);
  }

  /** `DELETE /api/accounts?handle=…` with the text of the query parameter. */
  method Delete(store: Store, raw: string, parseUrl: string -> Option<string>) returns (reply: Reply<seq<Account>>)
    modifies store
    ensures NormalizeHandle(raw, parseUrl) == "" ==> reply.BadRequest? && store.file == old(store.file)
    ensures NormalizeHandle(raw, parseUrl) != "" ==>
      var next := RemoveAccount(old(store.Current()), NormalizeHandle(raw, parseUrl));
      reply == Reply(next.accounts) && store.file == Some(Serialize(next))
  {
    var handle := HandleParam(raw, parseUrl);
    if handle.None? {
      return BadRequest("handle is required");
    }
    var h := handle.value;
    var next := store.UpdateDb(db => RemoveAccount(db, h));
    reply := Reply(next.accounts);
  }
}
