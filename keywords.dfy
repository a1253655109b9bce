/**
 * The keyword list and the Telegram switch (app/api/keywords/route.ts):
 * validation of the request, the updater each handler gives `updateDb`,
 * and the handlers over the store.
 */
module KeywordsRoute {
  import opened Base
  import opened Text
  import opened Seqs
  import opened Db

  /** A field of a JSON request body, as far as its truthiness goes. */
  datatype Json = Missing | Null | Bool(b: bool) | Number(n: int) | Str(s: string) | Object

  /** `Boolean(v)`. */
  predicate Truthy(v: Json) {
    match v
    case Missing => false
    case Null => false
    case Bool(b) => b
    case Number(n) => n != 0
    case Str(s) => s != ""
    case Object => true
  }

  /**
   * The keyword a request names: the text sent, trimmed, or nothing when
   * that is empty (the 400 answer).
   */
  function KeywordParam(raw: string): (k: Option<string>)
    ensures k.None? <==> AllSpace(raw)
    ensures k.Some? ==> k.value == Trim(raw) && k.value != [] && Trimmed(k.value)
  {
    var t := Trim(raw);
    if t == [] then None else Some(t)
  }

  /** Keywords compare without regard to case. */
  predicate SameKeyword(a: string, b: string) {
    Lower(a) == Lower(b)
  }

  predicate HasKeyword(keywords: seq<string>, keyword: string) {
    exists i :: 0 <= i < |keywords| && SameKeyword(keywords[i], keyword)
  }

  /** No two keywords of the list are equal up to case. */
  ghost predicate NoCaseDuplicates(keywords: seq<string>) {
    forall i, j :: 0 <= i < j < |keywords| ==> !SameKeyword(keywords[i], keywords[j])
  }

  /** The updater of `POST`: appends the keyword unless the list has it up to case. */
  function AddKeyword(db: DbShape, keyword: string): (r: DbShape)
    ensures r.accounts == db.accounts && r.items == db.items
    ensures r.telegramEnabled == db.telegramEnabled && r.settings == db.settings
    ensures HasKeyword(db.keywords, keyword) ==> r == db
  {
    if HasKeyword(db.keywords, keyword) then db
    else db.(keywords := db.keywords + [keyword])
  }

  function Differs(keyword: string): string -> bool {
    (item: string) => Lower(item) != Lower(keyword)
  }

  /** The updater of `DELETE`: drops every keyword equal to `keyword` up to case. */
  function RemoveKeyword(db: DbShape, keyword: string): (r: DbShape)
    ensures r.accounts == db.accounts && r.items == db.items
    ensures r.telegramEnabled == db.telegramEnabled && r.settings == db.settings
    ensures !HasKeyword(r.keywords, keyword)
    ensures forall i :: 0 <= i < |db.keywords| ==> (db.keywords[i] in r.keywords <==> !SameKeyword(db.keywords[i], keyword))
    ensures forall i :: 0 <= i < |r.keywords| ==> r.keywords[i] in db.keywords
  {
    db.(keywords := Filter(db.keywords, Differs(keyword)))
  }

  /** The updater of `PATCH`. */
  function SetTelegram(db: DbShape, enabled: bool): (r: DbShape)
    ensures r.telegramEnabled == enabled
    ensures r.accounts == db.accounts && r.items == db.items && r.keywords == db.keywords && r.settings == db.settings
  {
    db.(telegramEnabled := enabled)
  }

  /** After `POST`, the list holds the keyword, up to case. */
  lemma AddKeywordPresent(db: DbShape, keyword: string)
    ensures HasKeyword(AddKeyword(db, keyword).keywords, keyword)
  {
    if !HasKeyword(db.keywords, keyword) {
      var ks := AddKeyword(db, keyword).keywords;
      assert SameKeyword(ks[|db.keywords|], keyword);
    }
  }

  /** A new keyword goes at the end, after the others in their order. */
  lemma AddKeywordAppends(db: DbShape, keyword: string)
    requires !HasKeyword(db.keywords, keyword)
    ensures AddKeyword(db, keyword).keywords == db.keywords + [keyword]
  {
  }

  /** A list without duplicates up to case keeps none after `POST`. */
  lemma AddKeywordKeepsNoCaseDuplicates(db: DbShape, keyword: string)
    requires NoCaseDuplicates(db.keywords)
    ensures NoCaseDuplicates(AddKeyword(db, keyword).keywords)
  {
    if !HasKeyword(db.keywords, keyword) {
      var ks := db.keywords + [keyword];
      forall i, j | 0 <= i < j < |ks|
        ensures !SameKeyword(ks[i], ks[j])
      {
        if j == |db.keywords| {
          assert !SameKeyword(db.keywords[i], keyword);
        }
      }
    }
  }

  /** Posting the same keyword twice is the same as posting it once. */
  lemma AddKeywordIdempotent(db: DbShape, keyword: string)
    ensures AddKeyword(AddKeyword(db, keyword), keyword) == AddKeyword(db, keyword)
  {
    AddKeywordPresent(db, keyword);
  }

  /** Deleting a keyword that was just added, and was not there before, restores the list. */
  lemma {:induction false} RemoveUndoesAdd(db: DbShape, keyword: string)
    requires !HasKeyword(db.keywords, keyword)
    ensures RemoveKeyword(AddKeyword(db, keyword), keyword) == db
  {
    forall i | 0 <= i < |db.keywords|
      ensures Differs(keyword)(db.keywords[i])
    {
      assert !SameKeyword(db.keywords[i], keyword);
    }
    FilterConcat(db.keywords, [keyword], Differs(keyword));
    FilterKeepsAll(db.keywords, Differs(keyword));
    FilterDropsAll([keyword], Differs(keyword));
  }

  /** `GET /api/keywords`: the keyword list and the Telegram switch. */
  method Get(store: Store) returns (keywords: seq<string>, telegramEnabled: bool)
    modifies store
    ensures keywords == old(store.Current()).keywords && keywords != []
    ensures telegramEnabled == old(store.Current()).telegramEnabled
    ensures store.file == Some(Ensured(old(store.file)))
  {
    var db := store.ReadDb();
    keywords, telegramEnabled := db.keywords, db.telegramEnabled;
  }

  /** `POST /api/keywords` with the text of the `keyword` field. */
  method Post(store: Store, raw: string) returns (reply: Reply<seq<string>>)
    modifies store
    ensures AllSpace(raw) ==> reply.BadRequest? && store.file == old(store.file)
    ensures !AllSpace(raw) ==>
      var next := AddKeyword(old(store.Current()), Trim(raw));
      reply == Reply(next.keywords) && store.file == Some(Serialize(next))
  {
    var keyword := KeywordParam(raw);
    if keyword.None? {
      return BadRequest("keyword is required");
    }
    var k := keyword.value;
    var next := store.UpdateDb(db => AddKeyword(db, k));
    reply := Reply(next.keywords);
  }

  /** `DELETE /api/keywords?keyword=…` with the text of the query parameter. */
  method Delete(store: Store, raw: string) returns (reply: Reply<seq<string>>)
    modifies store
    ensures AllSpace(raw) ==> reply.BadRequest? && store.file == old(store.file)
    ensures !AllSpace(raw) ==>
      var next := RemoveKeyword(old(store.Current()), Trim(raw));
      reply == Reply(next.keywords) && store.file == Some(Serialize(next))
  {
    var keyword := KeywordParam(raw);
    if keyword.None? {
      return BadRequest("keyword is required");
    }
    var k := keyword.value;
    var next := store.UpdateDb(db => RemoveKeyword(db, k));
    reply := Reply(next.keywords);
  }

  /** `PATCH /api/keywords` with the `telegramEnabled` field of the body. */
  method Patch(store: Store, telegramEnabled: Json) returns (enabled: bool)
    modifies store
    ensures enabled == Truthy(telegramEnabled)
    ensures store.file == Some(Serialize(SetTelegram(old(store.Current()), Truthy(telegramEnabled))))
  {
    var flag := Truthy(telegramEnabled);
    var next := store.UpdateDb(db => SetTelegram(db, flag));
    enabled := next.telegramEnabled;
  }
}
