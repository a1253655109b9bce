/**
 * `GET /api/items` (app/api/items/route.ts): the stored items, newest
 * capture first, by a stable sort on `capturedAt`.
 */
module ItemsRoute {
  import opened Base
  import opened Sorting
  import opened Db

  /** The sort key: `capturedAt || ""`, which for a string is `capturedAt` itself. */
  function CapturedKey(item: CapturedItem): string {
    item.capturedAt
  }

  function NewestFirst(items: seq<CapturedItem>): seq<CapturedItem> {
    SortDesc(items, CapturedKey)
  }

  /**
   * The listing holds the stored items, each as often as stored, in
   * non-increasing `capturedAt` order; items captured at the same instant
   * keep their stored order.
   */
  lemma NewestFirstSpec(items: seq<CapturedItem>)
    ensures multiset(NewestFirst(items)) == multiset(items)
    ensures SortedDesc(NewestFirst(items), CapturedKey)
    ensures forall t :: WithKey(NewestFirst(items), CapturedKey, t) == WithKey(items, CapturedKey, t)
  {
    SortDescPermutes(items, CapturedKey);
    forall t
      ensures WithKey(NewestFirst(items), CapturedKey, t) == WithKey(items, CapturedKey, t)
    {
      SortDescStable(items, CapturedKey, t);
    }
  }

  /** The handler: reads the document (creating it if missing) and lists its items. */
  method Get(store: Store) returns (items: seq<CapturedItem>)
    modifies store
    ensures items == NewestFirst(old(store.Current()).items)
    ensures store.file == Some(Ensured(old(store.file)))
    ensures store.Current() == old(store.Current())
  {
    var db := store.ReadDb();
    items := NewestFirst(db.items);
  }
}
