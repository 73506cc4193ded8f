/** The edit dialog's form of src/components/EditSubscriptionForm.tsx: the
    form record copied from the subscription, its own plan-type input, the
    duration rule, and the expiration preview. */
module EditSubscriptionForm {
  import opened Wrappers
  import opened Dates
  import opened Strings
  import opened Types
  import opened DateUtils
  import Store
  import TypeSettingsModal

  /** The plan types this form lists before the custom ones. */
  const DefaultTypes: seq<string> :=
    ["Streaming", "Software", "Gaming", "News", "Music", "Cloud Storage", "VPN", "Other"]

  /** `allTypes`: the default types followed by the custom ones. */
  function AllTypes(customTypes: seq<string>): (all: seq<string>)
    ensures |all| == |DefaultTypes| + |customTypes|
    ensures forall t :: t in all <==> t in DefaultTypes || t in customTypes
  {
    DefaultTypes + customTypes
  }

  /** The form a subscription opens with: name, plan type, duration, custom
      duration and start date copied, notes defaulting to ''; there is no
      cost and no custom date key. */
  function InitialForm(sub: Subscription): (f: SubscriptionFormData)
    ensures f.clientName == sub.clientName && f.planType == sub.planType
    ensures f.duration == sub.duration && f.startDate == sub.startDate
    ensures f.customDuration.Value() == sub.customDuration && !f.customDuration.Missing?
    ensures f.notes == Defined(sub.notes.GetOr(""))
    ensures f.cost.Missing? && f.customDate.Missing?
  {
    SubscriptionFormData(sub.clientName, sub.planType, sub.duration, sub.startDate,
                         if sub.customDuration.Some? then Defined(sub.customDuration.value) else Undefined,
                         Missing, Defined(sub.notes.GetOr("")), Missing)
  }

  /** The duration select: 'custom' brings a custom duration of 30 days,
      any other choice removes it. */
  function WithDuration(f: SubscriptionFormData, value: string): (r: SubscriptionFormData)
    ensures r == f.(duration := value, customDuration := r.customDuration)
    ensures value == "custom" <==> r.customDuration == Defined(30)
    ensures value != "custom" ==> r.customDuration == Undefined
  {
    f.(duration := value, customDuration := if value == "custom" then Defined(30) else Undefined)
  }

  /** `addCustomType`'s check: the trimmed input, when non-empty and not
      among all the listed types. */
  function AcceptedType(input: string, customTypes: seq<string>): (r: Option<string>)
    ensures r.Some? <==> Trim(input) != [] && Trim(input) !in AllTypes(customTypes)
    ensures r.Some? ==> r.value == Trim(input)
  {
    var t := Trim(input);
    if t != [] && t !in AllTypes(customTypes) then Some(t) else None
  }

  /** This form refuses more than the plan-type dialog: whatever it accepts
      the dialog accepts, but a default type such as "VPN" that is not among
      the custom types is accepted by the dialog and refused here. */
  lemma StricterThanDialog(input: string, customTypes: seq<string>)
    ensures AcceptedType(input, customTypes).Some? ==>
      TypeSettingsModal.CheckNewType(input, customTypes) == Success(AcceptedType(input, customTypes).value)
    ensures Trim(input) != [] && Trim(input) in DefaultTypes && Trim(input) !in customTypes ==>
      AcceptedType(input, customTypes).None? && TypeSettingsModal.CheckNewType(input, customTypes) == Success(Trim(input))
  {
  }

  /** The expiration the form shows: computed without any custom date. */
  function PreviewExpiration(f: SubscriptionFormData): (e: int)
    ensures f.duration != "custom" || !f.customDate.Defined? ==> e == Store.FormExpiration(f)
    ensures f.duration == "custom" ==> e == f.startDate + ResolvedDays("custom", f.customDuration.Value()) * DAY
  {
    CalculateExpirationDate(f.startDate, f.duration, f.customDuration.Value(), None)
  }

  /** What submitting the form does to the record: the preview becomes its
      expiration and the status follows it; cost and custom date are kept,
      yet a kept custom date no longer sets the expiration. */
  lemma UpdateFollowsPreview(sub: Subscription, f: SubscriptionFormData, now: int)
    requires f.cost.Missing? && f.customDate.Missing?
    ensures Store.UpdatedRecord(sub, f, now).expirationDate == PreviewExpiration(f)
    ensures Store.UpdatedRecord(sub, f, now).status == GetSubscriptionStatus(PreviewExpiration(f), now)
    ensures Store.UpdatedRecord(sub, f, now).cost == sub.cost
    ensures Store.UpdatedRecord(sub, f, now).customDate == sub.customDate
  {
  }

  /** None of this form's duration choices is a key of the resolver's
      table: 'monthly' and 'yearly' both expire 30 days after the start,
      and so does 'custom' until another day count is entered. */
  lemma DurationChoicesExpireAfterThirtyDays(f: SubscriptionFormData, value: string)
    requires value in ["monthly", "yearly", "custom"]
    ensures PreviewExpiration(WithDuration(f, value)) == f.startDate + 30 * DAY
  {
  }

  /** With 'custom' and a non-zero day count, the preview is that many days
      after the start. */
  lemma CustomDaysAreUsed(f: SubscriptionFormData, days: int)
    requires days != 0
    ensures PreviewExpiration(WithDuration(f, "custom").(customDuration := Defined(days)))
      == f.startDate + days * DAY
  {
  }

  class Form {
    var formData: SubscriptionFormData
    var newCustomType: string
    var showCustomTypeInput: bool
    /** The `type` key `addCustomType` writes into the form record; no
        field of a subscription reads it. */
    var typeKey: Option<string>

    /** No control of the form sets a cost or a custom date. */
    ghost predicate Valid()
      reads this
    {
      formData.cost.Missing? && formData.customDate.Missing?
    }

    constructor (sub: Subscription)
      ensures Valid() && formData == InitialForm(sub)
      ensures newCustomType == "" && !showCustomTypeInput && typeKey.None?
    {
      formData := InitialForm(sub);
      newCustomType := "";
      showCustomTypeInput := false;
      typeKey := None;
    }

    /** `handleSubmit`: hands the form over as it is, without a check. */
    method HandleSubmit() returns (submitted: SubscriptionFormData)
      ensures submitted == formData
    {
      submitted := formData;
    }

    method SetClientName(text: string)
      requires Valid()
      modifies this`formData
      ensures Valid() && formData == old(formData).(clientName := text)
    {
      formData := formData.(clientName := text);
    }

    method SelectPlanType(t: string)
      requires Valid()
      modifies this`formData
      ensures Valid() && formData == old(formData).(planType := t)
    {
      formData := formData.(planType := t);
    }

    method SetNotes(text: string)
      requires Valid()
      modifies this`formData
      ensures Valid() && formData == old(formData).(notes := Defined(text))
    {
      formData := formData.(notes := Defined(text));
    }

    /** The start-date picker: a picked date replaces the start date. */
    method SelectStartDate(date: Option<int>)
      requires Valid()
      modifies this`formData
      ensures Valid()
      ensures formData == if date.Some? then old(formData).(startDate := date.value) else old(formData)
    {
      if date.Some? {
        formData := formData.(startDate := date.value);
      }
    }

    /** The duration select's change handler. */
    method SelectDuration(value: string)
      requires Valid()
      modifies this`formData
      ensures Valid() && formData == WithDuration(old(formData), value)
    {
      formData := WithDuration(formData, value);
    }

    /** The day-count input: an empty input removes the custom duration,
        otherwise its parse is stored. */
    method SetCustomDuration(entry: Option<int>)
      requires Valid()
      modifies this`formData
      ensures Valid()
      ensures formData == old(formData).(customDuration := if entry.Some? then Defined(entry.value) else Undefined)
    {
      formData := formData.(customDuration := if entry.Some? then Defined(entry.value) else Undefined);
    }

    method TypeCustomType(text: string)
      modifies this`newCustomType
      ensures newCustomType == text
    {
      newCustomType := text;
    }

    method SetShowCustomTypeInput(show: bool)
      modifies this`showCustomTypeInput
      ensures showCustomTypeInput == show
    {
      showCustomTypeInput := show;
    }

    /** `addCustomType`: an accepted type is appended by the store and
        written to the form's `type` key; the plan type stays as it was. */
    method AddCustomType(store: Store.SubscriptionStore)
      requires Valid()
      modifies this`newCustomType, this`showCustomTypeInput, this`typeKey, store`customTypes
      ensures Valid() && formData == old(formData)
      ensures var r := AcceptedType(old(newCustomType), old(store.customTypes));
        if r.Some? then
          store.customTypes == old(store.customTypes) + [r.value] && typeKey == r
          && newCustomType == "" && !showCustomTypeInput
        else
          store.customTypes == old(store.customTypes) && typeKey == old(typeKey)
          && newCustomType == old(newCustomType) && showCustomTypeInput == old(showCustomTypeInput)
    {
      var t := Trim(newCustomType);
      if t != [] && t !in AllTypes(store.customTypes) {
        store.AddCustomType(t);
        typeKey := Some(t);
        newCustomType := "";
        showCustomTypeInput := false;
      }
    }

    /** `removeCustomType`: the store removes the type; the plan type is
        cleared only if it was the one removed. */
    method RemoveCustomType(store: Store.SubscriptionStore, t: string)
      requires Valid()
      modifies this`formData, store`customTypes
      ensures Valid()
      ensures store.customTypes == Store.RemoveAllOf(old(store.customTypes), t)
      ensures old(formData).planType == t ==> formData == old(formData).(planType := "")
      ensures old(formData).planType != t ==> formData == old(formData)
    {
      store.RemoveCustomType(t);
      if formData.planType == t {
        formData := formData.(planType := "");
      }
    }
  }
}
