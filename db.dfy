/**
 * The single JSON document the server keeps (lib/db.ts): its shape, the
 * defaults `readDb` fills in, and `ensureDb`/`readDb`/`writeDb`/`updateDb`
 * over one stored document. The file is a field holding the parsed JSON,
 * or nothing while no file exists; JSON text and the filesystem are not
 * modelled.
 */
module Db {
  import opened Base

  datatype Account = Account(handle: string, enabled: bool, lastSeenId: Option<string>, lastCheckedAt: Option<string>)

  datatype CapturedItem = CapturedItem(
    id: string,
    handle: string,
    content: string,
    url: string,
    createdAt: Option<string>,
    capturedAt: string,
    read: Option<bool>)

  /** The `settings` object: the poll interval and whatever other fields it holds. */
  datatype Settings = Settings(pollIntervalMs: Option<int>, others: map<string, string>)

  /** The document as the server uses it, `notifications.telegram.enabled` flattened. */
  datatype DbShape = DbShape(
    accounts: seq<Account>,
    items: seq<CapturedItem>,
    keywords: seq<string>,
    telegramEnabled: bool,
    settings: Option<Settings>)

  /** The document as parsed from the file: any field may be missing. */
  datatype StoredDoc = StoredDoc(
    accounts: Option<seq<Account>>,
    items: Option<seq<CapturedItem>>,
    keywords: Option<seq<string>>,
    telegramEnabled: Option<bool>,
    settings: Option<Settings>)

  const DefaultKeywords: seq<string> := [
    "ai", "a.i.", "人工智能", "大模型", "模型", "机器学习", "深度学习",
    "llm", "gpt", "openai", "anthropic", "claude", "gemini", "aigc"
  ]

  const DefaultDb: DbShape := DbShape(
    [Account("FuSheng_0306", true, None, None)],
    [],
    DefaultKeywords,
    false,
    None)

  /** What `writeDb` puts in the file: every field of the document. */
  function Serialize(db: DbShape): StoredDoc {
    StoredDoc(Some(db.accounts), Some(db.items), Some(db.keywords), Some(db.telegramEnabled), db.settings)
  }

  /**
   * The merge `readDb` performs: keywords are kept only when present and
   * non-empty, accounts and items whenever present (even when empty),
   * the Telegram flag defaults to off, and other fields pass through.
   */
  function WithDefaults(doc: StoredDoc): (db: DbShape)
    ensures |db.keywords| > 0
    ensures doc.keywords.Some? && doc.keywords.value != [] ==> db.keywords == doc.keywords.value
    ensures doc.keywords.None? || doc.keywords.value == [] ==> db.keywords == DefaultKeywords
    ensures doc.accounts.Some? ==> db.accounts == doc.accounts.value
    ensures doc.accounts.None? ==> db.accounts == DefaultDb.accounts
    ensures db.items == if doc.items.Some? then doc.items.value else []
    ensures db.telegramEnabled == (doc.telegramEnabled.Some? && doc.telegramEnabled.value)
    ensures db.settings == doc.settings
  {
    DbShape(
      doc.accounts.GetOr(DefaultDb.accounts),
      doc.items.GetOr(DefaultDb.items),
      if doc.keywords.Some? && |doc.keywords.value| > 0 then doc.keywords.value else DefaultKeywords,
      doc.telegramEnabled.GetOr(DefaultDb.telegramEnabled),
      doc.settings)
  }

  /** Reading back what was written gives it back exactly when its keyword list is not empty. */
  lemma ReadAfterWrite(db: DbShape)
    ensures WithDefaults(Serialize(db)) == db <==> db.keywords != []
  {
    if db.keywords == [] {
      assert WithDefaults(Serialize(db)).keywords != db.keywords;
    }
  }

  /** A document written with no keywords reads back with the fourteen defaults. */
  lemma EmptyKeywordsReadAsDefaults(db: DbShape)
    requires db.keywords == []
    ensures WithDefaults(Serialize(db)) == db.(keywords := DefaultKeywords)
  {
  }

  /** What the file holds after `ensureDb`: the default document only if there was none. */
  function Ensured(file: Option<StoredDoc>): (doc: StoredDoc)
    ensures file.Some? ==> doc == file.value
    ensures file.None? ==> WithDefaults(doc) == DefaultDb
  {
    if file.None? then Serialize(DefaultDb) else file.value
  }

  class Store {
    /** The parsed content of `data/db.json`, or nothing while the file does not exist. */
    var file: Option<StoredDoc>

    constructor (initial: Option<StoredDoc>)
      ensures file == initial
    {
      file := initial;
    }

    /** The document a `readDb` would return now. */
    function Current(): DbShape
      reads this
    {
      WithDefaults(Ensured(file))
    }

    method EnsureDb()
      modifies this
      ensures file == Some(Ensured(old(file)))
    {
      if file.None? {
        file := Some(Serialize(DefaultDb));
      }
    }

    method ReadDb() returns (db: DbShape)
      modifies this
      ensures file == Some(Ensured(old(file)))
      ensures db == old(Current()) && |db.keywords| > 0
    {
      EnsureDb();
      db := WithDefaults(file.value);
    }

    method WriteDb(db: DbShape)
      modifies this
      ensures file == Some(Serialize(db))
    {
      EnsureDb();
      file := Some(Serialize(db));
    }

    /** Read, apply `updater`, write back what it returned and return it. */
    method UpdateDb(updater: DbShape -> DbShape) returns (next: DbShape)
      modifies this
      ensures next == updater(old(Current()))
      ensures file == Some(Serialize(next))
      ensures next.keywords != [] ==> Current() == next
    {
      var db := ReadDb();
      next := updater(db);
      WriteDb(next);
      ReadAfterWrite(next);
    }
  }
}
