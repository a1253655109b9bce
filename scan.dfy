/**
 * The scan (`POST` in app/api/scan/route.ts): for each enabled account in
 * list order, fetch its feed, sort it newest first, walk it up to the
 * account's last seen id, capture the new AI-related posts, and advance the
 * account's watermark in place; finally put the captured items in front of
 * the stored ones. The network is the oracle `feeds` that `FetchRss`
 * consults; the clock is the parameter `now`.
 */
module ScanRoute {
  import opened Base
  import opened Text
  import opened Seqs
  import opened Sorting
  import opened Feed
  import opened Db

  /** What `fetchRss` gives for each handle: the parsed feed, or the error it throws. */
  type Feeds = string -> Result<seq<RssItem>, FetchError>

  /** The feeds as `fetchRss` obtains them from the network `http`. */
  function FeedsOf(http: string -> HttpOutcome): Feeds {
    handle => RssOutcome(http, handle)
  }

  /** Captured content keeps at most this many characters. */
  const ContentLimit: nat := 200

  /** `s.slice(0, 200)`. */
  function Truncate(s: string): (r: string)
    ensures r <= s
    ensures |r| == if |s| < ContentLimit then |s| else ContentLimit
  {
    if |s| <= ContentLimit then s else s[..ContentLimit]
  }

  /** The account has a last seen id in the JavaScript sense: present and not empty. */
  predicate HasId(s: Option<string>) {
    s.Some? && s.value != ""
  }

  /** The sort key of a candidate: `createdAt || ""`. */
  function CreatedKey(c: RssItem): string {
    c.createdAt.GetOr("")
  }

  /** The ids of the stored items (`existingIds`). */
  function IdsOf(items: seq<CapturedItem>): set<string> {
    set k | 0 <= k < |items| :: items[k].id
  }

  /** The item stored for candidate `c` of account `handle`; it has no `read` field. */
  function Capture(handle: string, c: RssItem, now: string): CapturedItem {
    CapturedItem(c.id, handle, Truncate(c.content), c.url, c.createdAt, now, None)
  }

  /** The fields a captured item takes from its account, its candidate and the clock. */
  ghost predicate CapturedFrom(x: CapturedItem, handle: string, c: RssItem, now: string) {
    && x.id == c.id && x.handle == handle && x.url == c.url && x.createdAt == c.createdAt
    && x.capturedAt == now && x.read.None?
    && x.content <= c.content && |x.content| == (if |c.content| < ContentLimit then |c.content| else ContentLimit)
  }

  function CaptureAll(cands: seq<RssItem>, handle: string, now: string): seq<CapturedItem> {
    seq(|cands|, k requires 0 <= k < |cands| => Capture(handle, cands[k], now))
  }

  /** A candidate the walk would store: not stored before the scan, and AI-related. */
  function NewIn(existing: set<string>): RssItem -> bool {
    (c: RssItem) => c.id !in existing && IsAiRelated(c.content)
  }

  function Kept(cands: seq<RssItem>, existing: set<string>): seq<RssItem> {
    Filter(cands, NewIn(existing))
  }

  /** The walk stops at `c`: the account has a last seen id and `c` carries it. */
  predicate StopsAt(lastSeen: Option<string>, c: RssItem) {
    HasId(lastSeen) && c.id == lastSeen.value
  }

  /** How many candidates the walk visits: up to the first one carrying the last seen id. */
  function Cutoff(sorted: seq<RssItem>, lastSeen: Option<string>): (n: nat)
    ensures n <= |sorted|
    ensures forall k :: 0 <= k < n ==> !StopsAt(lastSeen, sorted[k])
    ensures n < |sorted| ==> StopsAt(lastSeen, sorted[n])
    ensures !HasId(lastSeen) ==> n == |sorted|
    decreases |sorted|
  {
    if sorted == [] || StopsAt(lastSeen, sorted[0]) then 0
    else 1 + Cutoff(sorted[1..], lastSeen)
  }

  /** The account's candidates, newest first; none when its fetch fails. */
  function Candidates(acc: Account, feeds: Feeds): seq<RssItem> {
    match feeds(acc.handle)
    case Ok(items) => SortDesc(items, CreatedKey)
    case Err(_) => []
  }

  /** The items one account contributes to the scan. */
  function AccountCaptures(acc: Account, existing: set<string>, now: string, feeds: Feeds): (r: seq<CapturedItem>)
    ensures !acc.enabled || feeds(acc.handle).Err? || feeds(acc.handle) == Ok([]) ==> r == []
  {
    if !acc.enabled then []
    else
      var sorted := Candidates(acc, feeds);
      CaptureAll(Kept(sorted[..Cutoff(sorted, acc.lastSeenId)], existing), acc.handle, now)
  }

  /** The account after the scan has visited it. */
  function StepAccount(acc: Account, now: string, feeds: Feeds): (r: Account)
    ensures r.handle == acc.handle && r.enabled == acc.enabled
    ensures !acc.enabled ==> r == acc
    ensures acc.enabled && feeds(acc.handle).Err? ==> r == acc.(lastCheckedAt := Some(now))
    ensures acc.enabled && feeds(acc.handle) == Ok([]) ==> r == acc
    ensures acc.enabled && Candidates(acc, feeds) != [] ==>
      && r.lastCheckedAt == Some(now)
      && r.lastSeenId == (if Candidates(acc, feeds)[0].id != "" then Some(Candidates(acc, feeds)[0].id) else acc.lastSeenId)
  {
    if !acc.enabled then acc
    else match feeds(acc.handle)
      case Err(_) => acc.(lastCheckedAt := Some(now))
      case Ok(items) =>
        if items == [] then acc
        else
          var latestId := SortDesc(items, CreatedKey)[0].id;
          acc.(lastSeenId := if latestId != "" then Some(latestId) else acc.lastSeenId, lastCheckedAt := Some(now))
  }

  /** The items the scan captures from `accounts`, in account order. */
  function CapturedUpTo(accounts: seq<Account>, existing: set<string>, now: string, feeds: Feeds): seq<CapturedItem>
    decreases |accounts|
  {
    if accounts == [] then []
    else
      var n := |accounts| - 1;
      CapturedUpTo(accounts[..n], existing, now, feeds) + AccountCaptures(accounts[n], existing, now, feeds)
  }

  function StepAll(accounts: seq<Account>, now: string, feeds: Feeds): seq<Account> {
    seq(|accounts|, k requires 0 <= k < |accounts| => StepAccount(accounts[k], now, feeds))
  }

  /** The document the scan's updater returns. */
  function ScanResult(db: DbShape, now: string, feeds: Feeds): DbShape {
    db.(items := CapturedUpTo(db.accounts, IdsOf(db.items), now, feeds) + db.items,
        accounts := StepAll(db.accounts, now, feeds))
  }

  function CapturedNow(now: string): CapturedItem -> bool {
    (x: CapturedItem) => x.capturedAt == now
  }

  lemma KeptSnoc(cands: seq<RssItem>, c: RssItem, existing: set<string>)
    ensures Kept(cands + [c], existing) == Kept(cands, existing) + (if NewIn(existing)(c) then [c] else [])
  {
    FilterConcat(cands, [c], NewIn(existing));
  }

  lemma CaptureAllSnoc(cands: seq<RssItem>, c: RssItem, handle: string, now: string)
    ensures CaptureAll(cands + [c], handle, now) == CaptureAll(cands, handle, now) + [Capture(handle, c, now)]
  {
    assert forall k :: 0 <= k < |cands| ==> (cands + [c])[k] == cands[k];
  }

  lemma CapturedUpToSnoc(accounts: seq<Account>, i: nat, existing: set<string>, now: string, feeds: Feeds)
    requires i < |accounts|
    ensures CapturedUpTo(accounts[..i + 1], existing, now, feeds)
      == CapturedUpTo(accounts[..i], existing, now, feeds) + AccountCaptures(accounts[i], existing, now, feeds)
  {
    assert accounts[..i + 1][..i] == accounts[..i];
  }

  lemma StepAllSnoc(accounts: seq<Account>, i: nat, now: string, feeds: Feeds)
    requires i < |accounts|
    ensures StepAll(accounts[..i + 1], now, feeds) == StepAll(accounts[..i], now, feeds) + [StepAccount(accounts[i], now, feeds)]
  {
  }

  /** What one more candidate adds to the captures of a prefix of the walk. */
  lemma WalkStep(sorted: seq<RssItem>, j: nat, existing: set<string>, handle: string, now: string)
    requires j < |sorted|
    ensures CaptureAll(Kept(sorted[..j + 1], existing), handle, now)
      == CaptureAll(Kept(sorted[..j], existing), handle, now)
        + (if NewIn(existing)(sorted[j]) then [Capture(handle, sorted[j], now)] else [])
  {
    assert sorted[..j + 1] == sorted[..j] + [sorted[j]];
    KeptSnoc(sorted[..j], sorted[j], existing);
    CaptureAllSnoc(Kept(sorted[..j], existing), sorted[j], handle, now);
  }

  /**
   * The inner loop of the scan over one account's sorted candidates: stops
   * at the last seen id, skips stored ids and posts that are not AI-related,
   * captures the rest.
   */
  method WalkFeed(sorted: seq<RssItem>, lastSeen: Option<string>, existingIds: set<string>, handle: string, now: string)
    returns (captured: seq<CapturedItem>)
    ensures captured == CaptureAll(Kept(sorted[..Cutoff(sorted, lastSeen)], existingIds), handle, now)
  {
    captured := [];
    var j := 0;
    while j < |sorted|
      invariant 0 <= j <= Cutoff(sorted, lastSeen)
      invariant captured == CaptureAll(Kept(sorted[..j], existingIds), handle, now)
    {
      var item := sorted[j];
      if HasId(lastSeen) && item.id == lastSeen.value {
        break;
      }
      WalkStep(sorted, j, existingIds, handle, now);
      if item.id in existingIds {
        j := j + 1;
        continue;
      }
      if !IsAiRelated(item.content) {
        j := j + 1;
        continue;
      }
      captured := captured + [Capture(handle, item, now)];
      j := j + 1;
    }
  }

  /**
   * The body of the scan's outer loop for one account: the account as the
   * loop leaves it and the items it pushes.
   */
  method VisitAccount(account: Account, existingIds: set<string>, now: string, http: string -> HttpOutcome)
    returns (updated: Account, captured: seq<CapturedItem>)
    ensures updated == StepAccount(account, now, FeedsOf(http))
    ensures captured == AccountCaptures(account, existingIds, now, FeedsOf(http))
  {
    updated, captured := account, [];
    if !account.enabled {
      return;
    }
    var fetched := FetchRss(account.handle, http);
    assert fetched == FeedsOf(http)(account.handle);
    if fetched.Err? {
      updated := account.(lastCheckedAt := Some(now));
      return;
    }
    var rssItems := fetched.value;
    if |rssItems| == 0 {
      return;
    }
    var sorted := SortDesc(rssItems, CreatedKey);
    assert sorted == Candidates(account, FeedsOf(http));
    var latestId := sorted[0].id;
    captured := WalkFeed(sorted, account.lastSeenId, existingIds, account.handle, now);
    updated := account.(lastSeenId := if latestId != "" then Some(latestId) else account.lastSeenId, lastCheckedAt := Some(now));
  }

  /** The scan's updater, with the loops of the route; the accounts are updated in place. */
  method Scan(db: DbShape, now: string, http: string -> HttpOutcome) returns (next: DbShape)
    ensures next == ScanResult(db, now, FeedsOf(http))
  {
    ghost var feeds := FeedsOf(http);
    var n := |db.accounts|;
    var accounts := new Account[n](k requires 0 <= k < n => db.accounts[k]);
    var existingIds := IdsOf(db.items);
    var newItems: seq<CapturedItem> := [];
    var i := 0;
    while i < n
      invariant 0 <= i <= n
      invariant accounts[..i] == StepAll(db.accounts[..i], now, feeds)
      invariant forall k :: i <= k < n ==> accounts[k] == db.accounts[k]
      invariant newItems == CapturedUpTo(db.accounts[..i], existingIds, now, feeds)
    {
      CapturedUpToSnoc(db.accounts, i, existingIds, now, feeds);
      StepAllSnoc(db.accounts, i, now, feeds);
      var updated, captured := VisitAccount(accounts[i], existingIds, now, http);
      accounts[i] := updated;
      newItems := newItems + captured;
      assert accounts[..i + 1] == accounts[..i] + [updated];
      i := i + 1;
    }
    assert db.accounts[..n] == db.accounts;
    assert accounts[..] == accounts[..n];
    next := db.(items := newItems + db.items, accounts := accounts[..]);
  }

  /**
   * `POST /api/scan`: `updateDb` with the scan as updater, then the items of
   * the result captured at `now`.
   */
  method Post(store: Store, now: string, http: string -> HttpOutcome) returns (newItems: seq<CapturedItem>)
    modifies store
    ensures store.file == Some(Serialize(ScanResult(old(store.Current()), now, FeedsOf(http))))
    ensures newItems == Filter(ScanResult(old(store.Current()), now, FeedsOf(http)).items, CapturedNow(now))
  {
    var db := store.ReadDb();
    var next := Scan(db, now, http);
    store.WriteDb(next);
    newItems := Filter(next.items, CapturedNow(now));
  }

  // ---------------------------------------------------------------------------
  // What the scan promises

  /** Candidate `k` of `acc` is one the scan captured as `x`. */
  ghost predicate CapturedFromAccount(x: CapturedItem, acc: Account, k: int, existing: set<string>, now: string, feeds: Feeds) {
    var sorted := Candidates(acc, feeds);
    && acc.enabled
    && 0 <= k < Cutoff(sorted, acc.lastSeenId)
    && CapturedFrom(x, acc.handle, sorted[k], now)
    && sorted[k].id !in existing
    && IsAiRelated(sorted[k].content)
  }

  lemma CaptureIsCapturedFrom(handle: string, c: RssItem, now: string)
    ensures CapturedFrom(Capture(handle, c, now), handle, c, now)
  {
  }

  lemma CaptureAllMember(cands: seq<RssItem>, handle: string, now: string, x: CapturedItem)
    requires x in CaptureAll(cands, handle, now)
    ensures exists m :: 0 <= m < |cands| && x == Capture(handle, cands[m], now)
  {
    var r := CaptureAll(cands, handle, now);
    var m :| 0 <= m < |r| && r[m] == x;
    assert x == Capture(handle, cands[m], now);
  }

  /** The items an enabled account contributes, unfolded. */
  lemma AccountCapturesUnfold(acc: Account, existing: set<string>, now: string, feeds: Feeds)
    requires acc.enabled
    ensures var sorted := Candidates(acc, feeds);
      AccountCaptures(acc, existing, now, feeds) == CaptureAll(Kept(sorted[..Cutoff(sorted, acc.lastSeenId)], existing), acc.handle, now)
  {
  }

  /** A kept candidate sits somewhere in `cands`, is not stored and is AI-related. */
  lemma KeptMember(cands: seq<RssItem>, existing: set<string>, m: nat)
    requires m < |Kept(cands, existing)|
    ensures exists k :: 0 <= k < |cands| && cands[k] == Kept(cands, existing)[m]
    ensures Kept(cands, existing)[m].id !in existing && IsAiRelated(Kept(cands, existing)[m].content)
  {
    var c := Kept(cands, existing)[m];
    assert c in cands && NewIn(existing)(c);
  }

  /**
   * Every item an account contributes comes from one of its candidates
   * before the cutoff, not stored before the scan and AI-related, with its
   * fields taken as the route takes them.
   */
  lemma AccountCapturesOrigin(acc: Account, existing: set<string>, now: string, feeds: Feeds, x: CapturedItem)
    requires x in AccountCaptures(acc, existing, now, feeds)
    ensures exists k :: CapturedFromAccount(x, acc, k, existing, now, feeds)
  {
    assert acc.enabled;
    var sorted := Candidates(acc, feeds);
    var prefix := sorted[..Cutoff(sorted, acc.lastSeenId)];
    var kept := Kept(prefix, existing);
    AccountCapturesUnfold(acc, existing, now, feeds);
    CaptureAllMember(kept, acc.handle, now, x);
    var m :| 0 <= m < |kept| && x == Capture(acc.handle, kept[m], now);
    KeptMember(prefix, existing, m);
    var k :| 0 <= k < |prefix| && prefix[k] == kept[m];
    assert sorted[k] == kept[m];
    CaptureIsCapturedFrom(acc.handle, kept[m], now);
    assert 0 <= k < Cutoff(sorted, acc.lastSeenId);
    assert CapturedFrom(x, acc.handle, sorted[k], now);
    assert sorted[k].id !in existing && IsAiRelated(sorted[k].content);
    assert CapturedFromAccount(x, acc, k, existing, now, feeds);
  }

  lemma {:induction false} CapturedUpToOrigin(accounts: seq<Account>, existing: set<string>, now: string, feeds: Feeds, x: CapturedItem)
    requires x in CapturedUpTo(accounts, existing, now, feeds)
    ensures exists a, k :: 0 <= a < |accounts| && CapturedFromAccount(x, accounts[a], k, existing, now, feeds)
    decreases |accounts|
  {
    var n := |accounts| - 1;
    if x in AccountCaptures(accounts[n], existing, now, feeds) {
      AccountCapturesOrigin(accounts[n], existing, now, feeds, x);
    } else {
      CapturedUpToOrigin(accounts[..n], existing, now, feeds, x);
      var a, k :| 0 <= a < n && CapturedFromAccount(x, accounts[..n][a], k, existing, now, feeds);
      assert accounts[..n][a] == accounts[a];
    }
  }

  /**
   * Each item the scan adds was a candidate of an enabled account, before
   * that account's cutoff, with an id not stored before the scan and an
   * AI-related text.
   */
  lemma ScanItemOrigin(db: DbShape, now: string, feeds: Feeds, x: CapturedItem)
    requires x in CapturedUpTo(db.accounts, IdsOf(db.items), now, feeds)
    ensures exists a, k :: 0 <= a < |db.accounts| && CapturedFromAccount(x, db.accounts[a], k, IdsOf(db.items), now, feeds)
  {
    CapturedUpToOrigin(db.accounts, IdsOf(db.items), now, feeds, x);
  }

  /** Every item of `xs` was captured at `now`. */
  ghost predicate AllAt(xs: seq<CapturedItem>, now: string) {
    forall m :: 0 <= m < |xs| ==> xs[m].capturedAt == now
  }

  lemma AllAtConcat(xs: seq<CapturedItem>, ys: seq<CapturedItem>, now: string)
    requires AllAt(xs, now) && AllAt(ys, now)
    ensures AllAt(xs + ys, now)
  {
    forall m | 0 <= m < |xs + ys|
      ensures (xs + ys)[m].capturedAt == now
    {
      if m < |xs| {
        assert (xs + ys)[m] == xs[m];
      } else {
        assert (xs + ys)[m] == ys[m - |xs|];
      }
    }
  }

  lemma AccountCapturesAtNow(acc: Account, existing: set<string>, now: string, feeds: Feeds)
    ensures AllAt(AccountCaptures(acc, existing, now, feeds), now)
  {
    if acc.enabled {
      AccountCapturesUnfold(acc, existing, now, feeds);
    }
  }

  /** Every item the scan captures carries the scan's clock reading. */
  lemma {:induction false} CapturedAtNow(accounts: seq<Account>, existing: set<string>, now: string, feeds: Feeds)
    ensures AllAt(CapturedUpTo(accounts, existing, now, feeds), now)
    decreases |accounts|
  {
    if accounts != [] {
      var n := |accounts| - 1;
      CapturedAtNow(accounts[..n], existing, now, feeds);
      AccountCapturesAtNow(accounts[n], existing, now, feeds);
      AllAtConcat(CapturedUpTo(accounts[..n], existing, now, feeds), AccountCaptures(accounts[n], existing, now, feeds), now);
    }
  }

  /**
   * The scan's result keeps the stored items, unchanged and in order, behind
   * the new ones, and the response lists the new items followed by any
   * stored item that happens to carry the same `capturedAt`.
   */
  lemma ScanReturnsNewItems(db: DbShape, now: string, feeds: Feeds)
    ensures var captured := CapturedUpTo(db.accounts, IdsOf(db.items), now, feeds);
      && ScanResult(db, now, feeds).items[|captured|..] == db.items
      && Filter(ScanResult(db, now, feeds).items, CapturedNow(now)) == captured + Filter(db.items, CapturedNow(now))
  {
    var captured := CapturedUpTo(db.accounts, IdsOf(db.items), now, feeds);
    CapturedAtNow(db.accounts, IdsOf(db.items), now, feeds);
    FilterConcat(captured, db.items, CapturedNow(now));
    forall m | 0 <= m < |captured|
      ensures CapturedNow(now)(captured[m])
    {
    }
    FilterKeepsAll(captured, CapturedNow(now));
  }

  /** Disabled accounts come out of the scan as they went in. */
  lemma ScanLeavesDisabledAccounts(db: DbShape, now: string, feeds: Feeds)
    ensures |ScanResult(db, now, feeds).accounts| == |db.accounts|
    ensures forall a :: 0 <= a < |db.accounts| && !db.accounts[a].enabled ==> ScanResult(db, now, feeds).accounts[a] == db.accounts[a]
  {
  }

  lemma {:induction false} CapturedUpToSameFeeds(accounts: seq<Account>, existing: set<string>, now: string, f1: Feeds, f2: Feeds)
    requires forall a :: 0 <= a < |accounts| && accounts[a].enabled ==> f1(accounts[a].handle) == f2(accounts[a].handle)
    ensures CapturedUpTo(accounts, existing, now, f1) == CapturedUpTo(accounts, existing, now, f2)
    decreases |accounts|
  {
    if accounts != [] {
      var n := |accounts| - 1;
      CapturedUpToSameFeeds(accounts[..n], existing, now, f1, f2);
      assert accounts[n].enabled ==> Candidates(accounts[n], f1) == Candidates(accounts[n], f2);
    }
  }

  lemma StepAllSameFeeds(accounts: seq<Account>, now: string, f1: Feeds, f2: Feeds)
    requires forall a :: 0 <= a < |accounts| && accounts[a].enabled ==> f1(accounts[a].handle) == f2(accounts[a].handle)
    ensures StepAll(accounts, now, f1) == StepAll(accounts, now, f2)
  {
    forall a | 0 <= a < |accounts|
      ensures StepAccount(accounts[a], now, f1) == StepAccount(accounts[a], now, f2)
    {
    }
  }

  /**
   * Disabled accounts are never fetched: whatever the network answers for
   * them, the scan's result is the same.
   */
  lemma ScanIgnoresDisabledFeeds(db: DbShape, now: string, f1: Feeds, f2: Feeds)
    requires forall a :: 0 <= a < |db.accounts| && db.accounts[a].enabled ==> f1(db.accounts[a].handle) == f2(db.accounts[a].handle)
    ensures ScanResult(db, now, f1) == ScanResult(db, now, f2)
  {
    CapturedUpToSameFeeds(db.accounts, IdsOf(db.items), now, f1, f2);
    StepAllSameFeeds(db.accounts, now, f1, f2);
  }

  /**
   * The new watermark is the feed's newest post: the candidate with the
   * greatest `createdAt`, the first such in feed order.
   */
  lemma LatestIsNewest(acc: Account, feeds: Feeds)
    requires feeds(acc.handle).Ok? && feeds(acc.handle).value != []
    ensures var items := feeds(acc.handle).value; exists i ::
      && 0 <= i < |items| && Candidates(acc, feeds)[0] == items[i]
      && (forall j :: 0 <= j < |items| ==> StrLe(CreatedKey(items[j]), CreatedKey(items[i])))
      && (forall j :: 0 <= j < i ==> CreatedKey(items[j]) != CreatedKey(items[i]))
  {
    SortDescHead(feeds(acc.handle).value, CreatedKey);
  }

  /**
   * A feed that is already newest first, whose first post carrying the
   * account's last seen id sits at `k`, is walked over the `k` posts before
   * it, in feed order.
   */
  lemma WalkStopsAtLastSeen(feed: seq<RssItem>, lastSeen: Option<string>, k: nat)
    requires SortedDesc(feed, CreatedKey)
    requires HasId(lastSeen) && k < |feed| && feed[k].id == lastSeen.value
    requires forall j :: 0 <= j < k ==> feed[j].id != lastSeen.value
    ensures var sorted := SortDesc(feed, CreatedKey); sorted[..Cutoff(sorted, lastSeen)] == feed[..k]
  {
    SortDescOfSorted(feed, CreatedKey);
    assert Cutoff(feed, lastSeen) == k;
  }

  /**
   * Ids are deduplicated only against the items stored before the scan: an
   * AI-related post that appears twice in one account's feed is stored twice.
   */
  lemma RepeatedPostStoredTwice(c: RssItem, handle: string, feeds: Feeds, now: string)
    requires IsAiRelated(c.content)
    requires feeds(handle) == Ok([c, c])
    ensures var db := DbShape([Account(handle, true, None, None)], [], [], false, None);
      ScanResult(db, now, feeds).items == [Capture(handle, c, now), Capture(handle, c, now)]
  {
    var acc := Account(handle, true, None, None);
    var db := DbShape([acc], [], [], false, None);
    StrLeReflexive(CreatedKey(c));
    SortDescOfSorted([c, c], CreatedKey);
    assert Candidates(acc, feeds) == [c, c];
    assert Cutoff([c, c], None) == 2;
    assert [c, c][..2] == [c, c];
    assert IdsOf(db.items) == {};
    FilterKeepsAll([c, c], NewIn({}));
    AccountCapturesUnfold(acc, {}, now, feeds);
    assert AccountCaptures(acc, {}, now, feeds) == [Capture(handle, c, now), Capture(handle, c, now)];
    assert [acc][..0] == [];
    assert CapturedUpTo([acc], {}, now, feeds) == CapturedUpTo([], {}, now, feeds) + AccountCaptures(acc, {}, now, feeds);
  }

  // ---------------------------------------------------------------------------
  // A second scan over the same feeds

  /** The ids of stored items before and after the captured ones are put in front. */
  lemma IdsOfMerged(captured: seq<CapturedItem>, items: seq<CapturedItem>)
    ensures IdsOf(items) <= IdsOf(captured + items)
    ensures forall m :: 0 <= m < |captured| ==> captured[m].id in IdsOf(captured + items)
  {
    var merged := captured + items;
    forall id | id in IdsOf(items)
      ensures id in IdsOf(merged)
    {
      var k :| 0 <= k < |items| && items[k].id == id;
      assert merged[|captured| + k] == items[k];
    }
    forall m | 0 <= m < |captured|
      ensures captured[m].id in IdsOf(merged)
    {
      assert merged[m] == captured[m];
    }
  }

  /**
   * An account visited once, whose captures are now all stored, captures
   * nothing when visited again with the same feed: either its watermark now
   * stops the walk at the first candidate, or the walk meets the same
   * candidates, all of them stored or not AI-related.
   */
  lemma RevisitCapturesNothing(acc: Account, existing: set<string>, existing2: set<string>, now: string, now2: string, feeds: Feeds)
    requires existing <= existing2
    requires forall x :: x in AccountCaptures(acc, existing, now, feeds) ==> x.id in existing2
    ensures AccountCaptures(StepAccount(acc, now, feeds), existing2, now2, feeds) == []
  {
    var acc2 := StepAccount(acc, now, feeds);
    if acc.enabled && feeds(acc.handle).Ok? && feeds(acc.handle).value != [] {
      var sorted := Candidates(acc, feeds);
      assert Candidates(acc2, feeds) == sorted;
      AccountCapturesUnfold(acc2, existing2, now2, feeds);
      if sorted[0].id != "" {
        assert Cutoff(sorted, acc2.lastSeenId) == 0;
        assert sorted[..0] == [];
      } else {
        assert acc2.lastSeenId == acc.lastSeenId;
        var prefix := sorted[..Cutoff(sorted, acc.lastSeenId)];
        var kept := Kept(prefix, existing);
        AccountCapturesUnfold(acc, existing, now, feeds);
        forall i | 0 <= i < |prefix|
          ensures !NewIn(existing2)(prefix[i])
        {
          if NewIn(existing)(prefix[i]) {
            assert prefix[i] in kept;
            var m :| 0 <= m < |kept| && kept[m] == prefix[i];
            assert CaptureAll(kept, acc.handle, now)[m] in AccountCaptures(acc, existing, now, feeds);
          }
        }
        FilterDropsAll(prefix, NewIn(existing2));
      }
    }
  }

  /** The accounts stepped by a scan capture nothing once its captures are stored. */
  lemma {:induction false} RescanCapturesNothing(accounts: seq<Account>, existing: set<string>, existing2: set<string>, now: string, now2: string, feeds: Feeds)
    requires existing <= existing2
    requires forall x :: x in CapturedUpTo(accounts, existing, now, feeds) ==> x.id in existing2
    ensures CapturedUpTo(StepAll(accounts, now, feeds), existing2, now2, feeds) == []
    decreases |accounts|
  {
    if accounts != [] {
      var n := |accounts| - 1;
      var stepped := StepAll(accounts, now, feeds);
      assert stepped[..n] == StepAll(accounts[..n], now, feeds);
      RescanCapturesNothing(accounts[..n], existing, existing2, now, now2, feeds);
      RevisitCapturesNothing(accounts[n], existing, existing2, now, now2, feeds);
    }
  }

  /**
   * Ingestion is idempotent: a second scan over the same feeds, at any later
   * time, captures nothing new.
   */
  lemma ScanTwiceCapturesNothing(db: DbShape, now: string, now2: string, feeds: Feeds)
    ensures var db2 := ScanResult(db, now, feeds);
      CapturedUpTo(db2.accounts, IdsOf(db2.items), now2, feeds) == []
  {
    var captured := CapturedUpTo(db.accounts, IdsOf(db.items), now, feeds);
    var db2 := ScanResult(db, now, feeds);
    IdsOfMerged(captured, db.items);
    forall x | x in captured
      ensures x.id in IdsOf(db2.items)
    {
      var m :| 0 <= m < |captured| && captured[m] == x;
    }
    RescanCapturesNothing(db.accounts, IdsOf(db.items), IdsOf(db2.items), now, now2, feeds);
  }
}
