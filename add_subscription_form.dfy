/** The "Add Subscription" form of src/components/AddSubscriptionForm.tsx:
    the form record it edits, the submit guard and reset, the wiring of the
    two vocabulary dialogs, and the expiration preview. */
module AddSubscriptionForm {
  import opened Wrappers
  import opened Dates
  import opened Types
  import opened DateUtils
  import Store
  import TypeSettingsModal
  import DurationSettingsModal

  /** The form as it starts and as every submit leaves it, the start date
      read from the clock. It has no custom duration or custom date key. */
  function InitialForm(now: int): (f: SubscriptionFormData)
    ensures f.clientName == "" && f.planType == "Basic" && f.duration == "1-month" && f.startDate == now
    ensures f.customDuration.Missing? && f.customDate.Missing?
    ensures f.notes == Defined("") && f.cost == Undefined
  {
    SubscriptionFormData("", "Basic", "1-month", now, Missing, Missing, Defined(""), Undefined)
  }

  /** The submit guard: a client name and a plan type. The start date is a
      `Date` the form always holds, so it never fails the guard. A freshly
      opened form has no name, so it cannot be submitted. */
  predicate CanSubmit(f: SubscriptionFormData)
    ensures f == InitialForm(f.startDate) ==> !CanSubmit(f)
  {
    f.clientName != "" && f.planType != ""
  }

  /** The duration select: the key is replaced and a custom date is kept
      only when the new key is 'custom'; otherwise the key is written with
      `undefined`. */
  function WithDuration(f: SubscriptionFormData, value: string): (r: SubscriptionFormData)
    ensures r == f.(duration := value, customDate := r.customDate)
    ensures value == "custom" && f.customDate.Defined? ==> r.customDate == f.customDate
    ensures !(value == "custom" && f.customDate.Defined?) ==> r.customDate == Undefined
  {
    f.(duration := value,
       customDate := if value == "custom" && f.customDate.Defined? then f.customDate else Undefined)
  }

  /** The cost input: `parseFloat(text) || undefined`, given the parse
      result (None for NaN); 0 is stored as `undefined` too. */
  function CostField(parsed: Option<real>): (c: Prop<real>)
    ensures c.Defined? <==> parsed.Some? && parsed.value != 0.0
    ensures c.Defined? ==> c.value == parsed.value
    ensures !c.Missing?
  {
    if parsed.Some? && parsed.value != 0.0 then Defined(parsed.value) else Undefined
  }

  /** The expiration shown under the form. */
  function PreviewExpiration(f: SubscriptionFormData): (t: int)
    ensures f.duration == "lifetime" ==> t == LIFETIME_EXPIRATION
    ensures f.duration == "custom" && f.customDate.Defined? ==> t == f.customDate.value
  {
    Store.FormExpiration(f)
  }

  /** A record the form adds is stored at the day of its preview, with the
      status the preview had at the time of the add. */
  lemma StoredAtPreviewDay(id: string, f: SubscriptionFormData, now: int)
    ensures Store.InsertedRecord(id, f, now).expirationDate <= PreviewExpiration(f)
              < Store.InsertedRecord(id, f, now).expirationDate + DAY
    ensures Store.InsertedRecord(id, f, now).status == GetSubscriptionStatus(PreviewExpiration(f), now)
  {
  }

  /** The form never sets a custom duration, so a key from the duration
      dialog that is not in the resolver's table (its own day count
      notwithstanding) and a 'custom' key without a date both expire 30
      days after the start. */
  lemma DialogDurationsExpireAfterThirtyDays(f: SubscriptionFormData)
    requires f.customDuration.Missing?
    requires f.duration != "lifetime" && DurationTableDays(f.duration).None?
    requires f.duration == "custom" ==> !f.customDate.Defined?
    ensures PreviewExpiration(f) == f.startDate + 30 * DAY
  {
  }

  class Form {
    var formData: SubscriptionFormData

    /** No control of the form sets a custom duration. */
    ghost predicate Valid()
      reads this
    {
      formData.customDuration.Missing?
    }

    constructor (now: int)
      ensures Valid() && formData == InitialForm(now)
    {
      formData := InitialForm(now);
    }

    method SetClientName(text: string)
      requires Valid()
      modifies this
      ensures Valid() && formData == old(formData).(clientName := text)
    {
      formData := formData.(clientName := text);
    }

    method SelectPlanType(t: string)
      requires Valid()
      modifies this
      ensures Valid() && formData == old(formData).(planType := t)
    {
      formData := formData.(planType := t);
    }

    method SetNotes(text: string)
      requires Valid()
      modifies this
      ensures Valid() && formData == old(formData).(notes := Defined(text))
    {
      formData := formData.(notes := Defined(text));
    }

    method SetCost(parsed: Option<real>)
      requires Valid()
      modifies this
      ensures Valid() && formData == old(formData).(cost := CostField(parsed))
    {
      formData := formData.(cost := CostField(parsed));
    }

    /** The duration select's change handler. */
    method SelectDuration(value: string)
      requires Valid()
      modifies this
      ensures Valid() && formData == WithDuration(old(formData), value)
    {
      formData := WithDuration(formData, value);
    }

    /** The date picker: a picked date becomes the custom date; clearing
        the pick changes nothing. */
    method SelectCustomDate(date: Option<int>)
      requires Valid()
      modifies this
      ensures Valid()
      ensures date.Some? ==> formData == old(formData).(customDate := Defined(date.value))
      ensures date.None? ==> formData == old(formData)
    {
      if date.Some? {
        formData := formData.(customDate := Defined(date.value));
      }
    }

    /** `handleSubmit`: when the guard holds, hands the form to the caller
        (the result) and resets it with a fresh clock reading; otherwise
        nothing changes. A 'custom' key without a date is not refused. */
    method HandleSubmit(now: int) returns (submitted: Option<SubscriptionFormData>)
      requires Valid()
      modifies this
      ensures Valid()
      ensures CanSubmit(old(formData)) ==> submitted == Some(old(formData)) && formData == InitialForm(now)
      ensures !CanSubmit(old(formData)) ==> submitted.None? && formData == old(formData)
    {
      if CanSubmit(formData) {
        submitted := Some(formData);
        formData := InitialForm(now);
      } else {
        submitted := None;
      }
    }

    /** The plan-type dialog's add: the store appends the accepted type and
        the form selects it. */
    method AddTypeFromDialog(dialog: TypeSettingsModal.Dialog, store: Store.SubscriptionStore)
      requires Valid()
      requires dialog != store as object
      modifies this, dialog, store`customTypes
      ensures Valid()
      ensures var r := TypeSettingsModal.CheckNewType(old(dialog.newCustomType), old(store.customTypes));
        if r.Success? then
          store.customTypes == old(store.customTypes) + [r.value] && formData == old(formData).(planType := r.value)
        else
          store.customTypes == old(store.customTypes) && formData == old(formData)
    {
      var added := dialog.AddCustomType(store.customTypes);
      if added.Some? {
        store.AddCustomType(added.value);
        formData := formData.(planType := added.value);
      }
    }

    /** The duration dialog's add: the store appends the accepted entry and
        the form selects its key (the custom date is left as it is). */
    method AddDurationFromDialog(dialog: DurationSettingsModal.Dialog, store: Store.SubscriptionStore)
      requires Valid()
      requires dialog != store as object
      modifies this, dialog, store`customDurations
      ensures Valid()
      ensures var r := DurationSettingsModal.CheckNewDuration(old(dialog.draft), old(store.customDurations));
        if r.Success? then
          store.customDurations == old(store.customDurations) + [r.value]
          && formData == old(formData).(duration := r.value.value)
        else
          store.customDurations == old(store.customDurations) && formData == old(formData)
    {
      var added := dialog.AddCustomDuration(store.customDurations);
      if added.Some? {
        store.AddCustomDuration(added.value);
        formData := formData.(duration := added.value.value);
      }
    }

    /** `handleRemoveCustomType`: the store removes the type; the plan type
        is cleared only if it was the one removed. */
    method HandleRemoveCustomType(store: Store.SubscriptionStore, t: string)
      requires Valid()
      modifies this, store`customTypes
      ensures Valid()
      ensures store.customTypes == Store.RemoveAllOf(old(store.customTypes), t)
      ensures old(formData).planType == t ==> formData == old(formData).(planType := "")
      ensures old(formData).planType != t ==> formData == old(formData)
    {
      store.RemoveCustomType(t);
      if formData.planType == t {
        formData := formData.(planType := "");
      }
    }
  }
}
