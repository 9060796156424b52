/**
  Application settings (`useSettings`): the first stored row is the current
  settings; `updateSettings` patches it or, when none is known, adds a row
  built from the defaults; `resetSettings` puts the defaults back while
  keeping the row's creation time.
*/
module SettingsHook {
  import opened Wrappers
  import opened Types
  import opened Tables
  import opened Db

  /** `defaultSettings`; `createdAt` is the time the module was loaded. */
  function DefaultSettings(loadedAt: string): (s: Settings)
    ensures s.businessName == Some("Udangku Business")
    ensures s.defaultShrinkagePercentage == Some(5.0) && s.defaultDailyPrice == Some(0.0)
    ensures s.currency == Some("IDR") && s.currencySymbol == Some("Rp")
    ensures s.debtReminderDays == Some(3) && s.itemsPerPage == Some(10) && s.defaultDebtDueDays == Some(30)
    ensures s.backupFrequency == Some(Weekly) && s.theme == Some(Light)
    ensures s.workingDays.Some? && |s.workingDays.value| == 6
    ensures s.createdAt == Some(loadedAt) && s.updatedAt.None?
  {
    Settings(
      Some("Udangku Business"), Some(""), Some(""), Some(""),
      Some(5.0), Some(0.0),
      Some("IDR"), Some("Rp"), Some("Asia/Jakarta"), Some("dd/MM/yyyy"),
      Some(true), Some(true), Some(3),
      Some(false), Some(Weekly),
      Some(Light), Some("id"), Some(10),
      Some("08:00"), Some("17:00"), Some(["Senin", "Selasa", "Rabu", "Kamis", "Jumat", "Sabtu"]),
      Some(30), Some(true),
      Some(loadedAt), None)
  }

  /** A field of `{...base, ...patch}`: the patch's value when it has one. */
  function Over<T>(patch: Option<T>, base: Option<T>): (r: Option<T>)
    ensures patch.Some? ==> r == patch
    ensures patch.None? ==> r == base
  {
    if patch.Some? then patch else base
  }

  /** `{...base, ...patch}`, field by field. */
  function Merge(base: Settings, patch: Settings): Settings {
    Settings(
      Over(patch.businessName, base.businessName),
      Over(patch.businessAddress, base.businessAddress),
      Over(patch.businessPhone, base.businessPhone),
      Over(patch.businessEmail, base.businessEmail),
      Over(patch.defaultShrinkagePercentage, base.defaultShrinkagePercentage),
      Over(patch.defaultDailyPrice, base.defaultDailyPrice),
      Over(patch.currency, base.currency),
      Over(patch.currencySymbol, base.currencySymbol),
      Over(patch.timezone, base.timezone),
      Over(patch.dateFormat, base.dateFormat),
      Over(patch.enableNotifications, base.enableNotifications),
      Over(patch.enableDebtReminders, base.enableDebtReminders),
      Over(patch.debtReminderDays, base.debtReminderDays),
      Over(patch.enableAutoBackup, base.enableAutoBackup),
      Over(patch.backupFrequency, base.backupFrequency),
      Over(patch.theme, base.theme),
      Over(patch.language, base.language),
      Over(patch.itemsPerPage, base.itemsPerPage),
      Over(patch.workingHoursStart, base.workingHoursStart),
      Over(patch.workingHoursEnd, base.workingHoursEnd),
      Over(patch.workingDays, base.workingDays),
      Over(patch.defaultDebtDueDays, base.defaultDebtDueDays),
      Over(patch.enableAutoDebtReminders, base.enableAutoDebtReminders),
      Over(patch.createdAt, base.createdAt),
      Over(patch.updatedAt, base.updatedAt))
  }

  /** The empty patch changes nothing, a patch applied twice is applied once, and a full record replaces everything. */
  lemma MergeLaws(base: Settings, patch: Settings)
    ensures Merge(base, NoSettings) == base
    ensures Merge(Merge(base, patch), patch) == Merge(base, patch)
    ensures Merge(NoSettings, patch) == patch
    ensures Merge(base, Merge(base, patch)) == Merge(base, patch)
  {
  }

  /** `settingsArray?.[0]` with its key: the stored row with the least key, if any. */
  function FirstRow(t: Table<Settings>): (r: Option<(int, Settings)>)
    requires t.Valid()
    ensures r.None? <==> t.rows == map[]
    ensures r.Some? ==> r.value.0 in t.rows && t.rows[r.value.0] == r.value.1 && r.value.0 >= 1
    ensures r.Some? ==> forall k | k in t.rows :: r.value.0 <= k
  {
    EntriesBelowShape(t.rows, t.next);
    var es := t.Entries();
    if es == [] then
      assert forall k | k in t.rows :: (k, t.rows[k]) in es;
      None
    else
      assert es[0] in es;
      assert forall k | k in t.rows :: exists i | 0 <= i < |es| :: es[i] == (k, t.rows[k]);
      Some(es[0])
  }

  /**
    `updateSettings(newSettings)`. `loaded` says whether the live query had
    delivered the table when the call was made: before that the hook sees no
    settings and takes the adding branch even when a row is stored.
  */
  method UpdateSettings(db: Store, loaded: bool, patch: Settings, loadedAt: string, now: string)
    requires db.Valid()
    modifies db`settings
    ensures db.Valid()
    ensures loaded && old(db.settings).rows != map[] ==>
      var (id, row) := FirstRow(old(db.settings)).value;
      db.settings == old(db.settings).Replace(id, Merge(row, patch.(updatedAt := Some(now))))
    ensures !loaded || old(db.settings).rows == map[] ==>
      db.settings == old(db.settings).Add(Merge(DefaultSettings(loadedAt), patch).(createdAt := Some(now)))
  {
    var settings: Option<(int, Settings)> := None;
    if loaded {
      settings := FirstRow(db.settings);
    }
    if settings.Some? && settings.value.0 != 0 {
      var (id, row) := settings.value;
      db.settings := db.settings.Replace(id, Merge(row, patch.(updatedAt := Some(now))));
    } else {
      var row := Merge(DefaultSettings(loadedAt), patch).(createdAt := Some(now));
      AddAppends(db.settings, row);
      db.settings := db.settings.Add(row);
    }
  }

  /**
    With a known row, an update keeps the number of rows and the row's key;
    every field the patch supplies takes the patch's value, every other field
    keeps the stored one, and the update time is the call's.
  */
  lemma UpdateKeepsSingleRow(t: Table<Settings>, patch: Settings, now: string)
    requires t.Valid() && t.rows != map[]
    ensures var (id, row) := FirstRow(t).value;
      var r := Merge(row, patch.(updatedAt := Some(now)));
      && t.Replace(id, r).Count() == t.Count()
      && t.Replace(id, r).rows.Keys == t.rows.Keys
      && t.Replace(id, r).rows[id] == r
      && r.updatedAt == Some(now)
      && r.businessName == (if patch.businessName.Some? then patch.businessName else row.businessName)
      && r.businessAddress == (if patch.businessAddress.Some? then patch.businessAddress else row.businessAddress)
      && r.businessPhone == (if patch.businessPhone.Some? then patch.businessPhone else row.businessPhone)
      && r.businessEmail == (if patch.businessEmail.Some? then patch.businessEmail else row.businessEmail)
      && r.defaultShrinkagePercentage == (if patch.defaultShrinkagePercentage.Some? then patch.defaultShrinkagePercentage else row.defaultShrinkagePercentage)
      && r.defaultDailyPrice == (if patch.defaultDailyPrice.Some? then patch.defaultDailyPrice else row.defaultDailyPrice)
      && r.currency == (if patch.currency.Some? then patch.currency else row.currency)
      && r.currencySymbol == (if patch.currencySymbol.Some? then patch.currencySymbol else row.currencySymbol)
      && r.timezone == (if patch.timezone.Some? then patch.timezone else row.timezone)
      && r.dateFormat == (if patch.dateFormat.Some? then patch.dateFormat else row.dateFormat)
      && r.enableNotifications == (if patch.enableNotifications.Some? then patch.enableNotifications else row.enableNotifications)
      && r.enableDebtReminders == (if patch.enableDebtReminders.Some? then patch.enableDebtReminders else row.enableDebtReminders)
      && r.debtReminderDays == (if patch.debtReminderDays.Some? then patch.debtReminderDays else row.debtReminderDays)
      && r.enableAutoBackup == (if patch.enableAutoBackup.Some? then patch.enableAutoBackup else row.enableAutoBackup)
      && r.backupFrequency == (if patch.backupFrequency.Some? then patch.backupFrequency else row.backupFrequency)
      && r.theme == (if patch.theme.Some? then patch.theme else row.theme)
      && r.language == (if patch.language.Some? then patch.language else row.language)
      && r.itemsPerPage == (if patch.itemsPerPage.Some? then patch.itemsPerPage else row.itemsPerPage)
      && r.workingHoursStart == (if patch.workingHoursStart.Some? then patch.workingHoursStart else row.workingHoursStart)
      && r.workingHoursEnd == (if patch.workingHoursEnd.Some? then patch.workingHoursEnd else row.workingHoursEnd)
      && r.workingDays == (if patch.workingDays.Some? then patch.workingDays else row.workingDays)
      && r.defaultDebtDueDays == (if patch.defaultDebtDueDays.Some? then patch.defaultDebtDueDays else row.defaultDebtDueDays)
      && r.enableAutoDebtReminders == (if patch.enableAutoDebtReminders.Some? then patch.enableAutoDebtReminders else row.enableAutoDebtReminders)
      && r.createdAt == (if patch.createdAt.Some? then patch.createdAt else row.createdAt)
  {
    var (id, row) := FirstRow(t).value;
    assert t.Replace(id, Merge(row, patch.(updatedAt := Some(now)))).rows.Keys == t.rows.Keys;
  }

  /** An update that adds a row leaves one more row than before. */
  lemma UpdateBeforeLoadAddsRow(t: Table<Settings>, patch: Settings, loadedAt: string, now: string)
    requires t.Valid()
    ensures t.Add(Merge(DefaultSettings(loadedAt), patch).(createdAt := Some(now))).Count() == t.Count() + 1
  {
    AddAppends(t, Merge(DefaultSettings(loadedAt), patch).(createdAt := Some(now)));
  }

  /** The row `resetSettings` writes: the defaults, with the old creation time and a new update time. */
  function ResetRow(row: Settings, loadedAt: string, now: string): (r: Settings)
    ensures r.createdAt == row.createdAt && r.updatedAt == Some(now)
    ensures r.(createdAt := Some(loadedAt), updatedAt := None) == DefaultSettings(loadedAt)
  {
    DefaultSettings(loadedAt).(createdAt := row.createdAt, updatedAt := Some(now))
  }

  /** `resetSettings()`: nothing happens when no row is known. */
  method ResetSettings(db: Store, loaded: bool, loadedAt: string, now: string)
    requires db.Valid()
    modifies db`settings
    ensures db.Valid()
    ensures loaded && old(db.settings).rows != map[] ==>
      var (id, row) := FirstRow(old(db.settings)).value;
      db.settings == old(db.settings).Replace(id, ResetRow(row, loadedAt, now))
    ensures !loaded || old(db.settings).rows == map[] ==> db.settings == old(db.settings)
  {
    var settings: Option<(int, Settings)> := None;
    if loaded {
      settings := FirstRow(db.settings);
    }
    if settings.Some? && settings.value.0 != 0 {
      var (id, row) := settings.value;
      db.settings := db.settings.Replace(id, ResetRow(row, loadedAt, now));
    }
  }

  /** Resetting twice gives the row a single reset gives, up to the update time. */
  lemma ResetIdempotent(row: Settings, loadedAt: string, now1: string, now2: string)
    ensures ResetRow(ResetRow(row, loadedAt, now1), loadedAt, now2) == ResetRow(row, loadedAt, now2)
  {
  }

  /** After `initializeSettings` on an empty table, the current settings are the seed row under key 1. */
  lemma InitializedFirstRow(t: Table<Settings>)
    requires t.Valid() && t.Count() == 0
    ensures InitializedSettings(t).Valid()
    ensures FirstRow(InitializedSettings(t)) == Some((1, InitialSettings))
  {
    InitializeSeedsEmpty(t);
  }

  /**
    The seed row written at start-up has shrinkage 2 and price 25000 and
    nothing else; the defaults used for a new row say 5 and 0. A reset of the
    seed row therefore changes both values.
  */
  lemma SeedDiffersFromDefaults(loadedAt: string, now: string)
    ensures ResetRow(InitialSettings, loadedAt, now).defaultShrinkagePercentage == Some(5.0)
    ensures InitialSettings.defaultShrinkagePercentage == Some(2.0)
    ensures ResetRow(InitialSettings, loadedAt, now).defaultDailyPrice == Some(0.0)
    ensures InitialSettings.defaultDailyPrice == Some(25000.0)
    ensures ResetRow(InitialSettings, loadedAt, now).createdAt.None?
  {
  }
}
