/**
 * `PATCH /api/settings` and `GET /api/settings`
 * (app/api/settings/route.ts). The poll interval arrives as a number, or as
 * nothing when `Number(...)` of the field is not finite.
 */
module SettingsRoute {
  import opened Base
  import opened Db

  /** The shortest poll interval accepted, in milliseconds. */
  const MinPollIntervalMs: int := 60000

  /** The interval a request sets, or nothing when it is not a number or too short (the 400 answer). */
  function PollIntervalParam(value: Option<int>): (ms: Option<int>)
    ensures ms.Some? <==> value.Some? && value.value >= MinPollIntervalMs
    ensures ms.Some? ==> ms == value
  {
    if value.None? || value.value < MinPollIntervalMs then None else value
  }

  /** The updater: sets the interval, keeping the other settings; creates the record if absent. */
  function SetPollInterval(db: DbShape, ms: int): (r: DbShape)
    ensures r.settings.Some? && r.settings.value.pollIntervalMs == Some(ms)
    ensures db.settings.Some? ==> r.settings.value.others == db.settings.value.others
    ensures db.settings.None? ==> r.settings.value.others == map[]
    ensures r.accounts == db.accounts && r.items == db.items
    ensures r.keywords == db.keywords && r.telegramEnabled == db.telegramEnabled
  {
    var current := db.settings.GetOr(Settings(None, map[]));
    db.(settings := Some(current.(pollIntervalMs := Some(ms))))
  }

  /** The threshold is inclusive: 60000 is accepted, 59999 is not. */
  lemma Threshold()
    ensures PollIntervalParam(Some(60000)) == Some(60000)
    ensures PollIntervalParam(Some(59999)).None?
    ensures PollIntervalParam(None).None?
  {
  }

  /** Setting the interval twice is setting it to the second value. */
  lemma SetPollIntervalTwice(db: DbShape, a: int, b: int)
    ensures SetPollInterval(SetPollInterval(db, a), b) == SetPollInterval(db, b)
  {
  }

  method Get(store: Store) returns (settings: Option<Settings>)
    modifies store
    ensures settings == old(store.Current()).settings
    ensures store.file == Some(Ensured(old(store.file)))
  {
    var db := store.ReadDb();
    settings := db.settings;
  }

  method Patch(store: Store, value: Option<int>) returns (reply: Reply<Option<Settings>>)
    modifies store
    ensures PollIntervalParam(value).None? ==> reply.BadRequest? && store.file == old(store.file)
    ensures PollIntervalParam(value).Some? ==>
      var next := SetPollInterval(old(store.Current()), value.value);
      reply == Reply(next.settings) && store.file == Some(Serialize(next))
  {
    var ms := PollIntervalParam(value);
    if ms.None? {
      return BadRequest("pollIntervalMs must be >= 60000");
    }
    var m := ms.value;
    var next := store.UpdateDb(db => SetPollInterval(db, m));
    reply := Reply(next.settings);
  }
}
