/**
  The settings page (`SettingsPage`): the form for the two default values,
  its schema, and the submit handler that forwards the values to
  `updateSettings` and reports the result in a toast.
*/
module SettingsPage {
  import opened Wrappers
  import opened Types
  import opened Tables
  import opened Db
  import opened SettingsHook

  /** The two fields of the form; an absent value is one the settings row did not hold. */
  datatype SettingsForm = SettingsForm(defaultShrinkagePercentage: Option<real>, defaultDailyPrice: Option<real>)

  /** `settingsSchema`: a shrinkage of at least 0 and a price above 0. */
  predicate SchemaAccepts(f: SettingsForm) {
    && f.defaultShrinkagePercentage.Some? && f.defaultShrinkagePercentage.value >= 0.0
    && f.defaultDailyPrice.Some? && f.defaultDailyPrice.value > 0.0
  }

  /** `form.reset(settings)`: the form starts from the current row's two values. */
  function FormOf(row: Settings): (f: SettingsForm)
    ensures f.defaultShrinkagePercentage == row.defaultShrinkagePercentage && f.defaultDailyPrice == row.defaultDailyPrice
  {
    SettingsForm(row.defaultShrinkagePercentage, row.defaultDailyPrice)
  }

  /** The values forwarded to `updateSettings`: the schema keeps only its two keys. */
  function PatchOf(f: SettingsForm): (p: Settings)
    requires SchemaAccepts(f)
    ensures p.defaultShrinkagePercentage == f.defaultShrinkagePercentage && p.defaultDailyPrice == f.defaultDailyPrice
    ensures p.(defaultShrinkagePercentage := None, defaultDailyPrice := None) == NoSettings
  {
    NoSettings.(defaultShrinkagePercentage := f.defaultShrinkagePercentage, defaultDailyPrice := f.defaultDailyPrice)
  }

  /**
    The seeded row opens a form that can be saved as it is; a row reset to
    the defaults opens one that cannot, because the default price is 0.
  */
  lemma StartingFormsAgainstSchema(row: Settings, loadedAt: string, now: string)
    ensures SchemaAccepts(FormOf(InitialSettings))
    ensures !SchemaAccepts(FormOf(ResetRow(row, loadedAt, now)))
    ensures !SchemaAccepts(FormOf(DefaultSettings(loadedAt)))
  {
  }

  /** Saving the form over a stored row sets the two defaults to the entered values and keeps every other field but the update time. */
  lemma SavedValuesTakeEffect(row: Settings, f: SettingsForm, now: string)
    requires SchemaAccepts(f)
    ensures var r := Merge(row, PatchOf(f).(updatedAt := Some(now)));
      && FormOf(r) == f
      && r.updatedAt == Some(now)
      && r.(defaultShrinkagePercentage := row.defaultShrinkagePercentage, defaultDailyPrice := row.defaultDailyPrice,
            updatedAt := row.updatedAt) == row
  {
  }

  datatype Toast = SettingsSaved | SaveFailed(description: string)

  /** The toast for the outcome of `updateSettings`. */
  function ToastFor(o: Outcome): (t: Toast)
    ensures t == SettingsSaved <==> o.Pass?
    ensures o.Fail? ==> t == SaveFailed("Gagal menyimpan pengaturan: " + o.msg)
  {
    if o.Pass? then SettingsSaved else SaveFailed("Gagal menyimpan pengaturan: " + o.msg)
  }

  /**
    `handleSubmit(values)`: forwards the accepted values to `updateSettings`.
    Storage errors are not modelled, so the update always succeeds here; the
    error toast is what `ToastFor` gives for a failed one.
  */
  method HandleSubmit(db: Store, loaded: bool, f: SettingsForm, loadedAt: string, now: string) returns (t: Toast)
    requires db.Valid() && SchemaAccepts(f)
    modifies db`settings
    ensures db.Valid()
    ensures t == SettingsSaved
    ensures loaded && old(db.settings).rows != map[] ==>
      var (id, row) := FirstRow(old(db.settings)).value;
      db.settings == old(db.settings).Replace(id, Merge(row, PatchOf(f).(updatedAt := Some(now))))
    ensures !loaded || old(db.settings).rows == map[] ==>
      db.settings == old(db.settings).Add(Merge(DefaultSettings(loadedAt), PatchOf(f)).(createdAt := Some(now)))
  {
    UpdateSettings(db, loaded, PatchOf(f), loadedAt, now);
    t := ToastFor(Pass);
  }
}
