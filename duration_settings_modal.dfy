/** The "Duration Options" dialog of src/components/DurationSettingsModal.tsx:
    a draft entry (label, key, days), an error line and an open flag, and
    the validation that runs before a new entry is handed to the caller. */
module DurationSettingsModal {
  import opened Wrappers
  import opened Strings
  import opened Types
  import Seqs
  import SampleData
  import Store

  /** The dialog's draft entry; `days` is null when the field is blank. */
  datatype Draft = Draft(name: string, value: string, days: Option<int>)

  /** The draft the dialog starts from and returns to: days 0, not null. */
  const EmptyDraft: Draft := Draft("", "", Some(0))

  datatype DurationError = EmptyLabel | EmptyValue | DuplicateValue

  /** The text the dialog shows for each error. */
  function ErrorMessage(e: DurationError): (m: string)
    ensures m != ""
  {
    match e
    case EmptyLabel => "Duration label cannot be empty"
    case EmptyValue => "Duration value cannot be empty"
    case DuplicateValue => "This duration value already exists"
  }

  /** The days field after an edit: `parseInt(text) || null`, given the
      parse result (None for NaN); 0 becomes null as NaN does. */
  function DaysField(parsed: Option<int>): (days: Option<int>)
    ensures days.Some? <==> parsed.Some? && parsed.value != 0
    ensures days.Some? ==> days == parsed
  {
    if parsed.Some? && parsed.value != 0 then parsed else None
  }

  /** Whether a key is already used by an entry. */
  predicate HasValue(options: seq<DurationOption>, value: string) {
    exists i :: 0 <= i < |options| && options[i].value == value
  }

  /** The checks of `addCustomDuration`, in order: trimmed label non-empty,
      trimmed key non-empty, key not used by any entry. Labels may repeat. */
  function CheckNewDuration(draft: Draft, existing: seq<DurationOption>): (r: Result<DurationOption, DurationError>)
    ensures r == Failure(EmptyLabel) <==> Trim(draft.name) == []
    ensures r == Failure(EmptyValue) <==> Trim(draft.name) != [] && Trim(draft.value) == []
    ensures r == Failure(DuplicateValue) <==>
      Trim(draft.name) != [] && Trim(draft.value) != [] && HasValue(existing, Trim(draft.value))
    ensures r.Success? ==> r.value == DurationOption(Trim(draft.name), Trim(draft.value), draft.days)
  {
    var name := Trim(draft.name);
    var value := Trim(draft.value);
    if name == [] then Failure(EmptyLabel)
    else if value == [] then Failure(EmptyValue)
    else if HasValue(existing, value) then Failure(DuplicateValue)
    else Success(DurationOption(name, value, draft.days))
  }

  /** An accepted entry's key is new, so adding it keeps the keys of the
      vocabulary free of repetitions. */
  lemma AcceptedValueIsNew(draft: Draft, existing: seq<DurationOption>)
    requires Seqs.Distinct(SampleData.DurationValues(existing))
    requires CheckNewDuration(draft, existing).Success?
    ensures Seqs.Distinct(SampleData.DurationValues(existing + [CheckNewDuration(draft, existing).value]))
  {
    NewValueKeepsDistinct(existing, CheckNewDuration(draft, existing).value);
  }

  /** Appending an entry whose key no entry uses keeps the keys distinct. */
  lemma NewValueKeepsDistinct(existing: seq<DurationOption>, d: DurationOption)
    requires Seqs.Distinct(SampleData.DurationValues(existing))
    requires !HasValue(existing, d.value)
    ensures Seqs.Distinct(SampleData.DurationValues(existing + [d]))
  {
    var values := SampleData.DurationValues(existing + [d]);
    var before := SampleData.DurationValues(existing);
    forall i, j | 0 <= i < j < |values| ensures values[i] != values[j] {
      if j == |existing| {
        assert values[i] == existing[i].value;
      } else {
        assert values[i] == before[i] && values[j] == before[j];
      }
    }
  }

  /** Labels are never compared: once label and key are non-empty after
      trimming, a draft is accepted exactly when its key is new, so a label
      such as "1 Month" may be entered again under another key. */
  lemma OnlyTheKeyIsChecked(draft: Draft, existing: seq<DurationOption>)
    requires Trim(draft.name) != [] && Trim(draft.value) != []
    ensures CheckNewDuration(draft, existing).Success? <==> !HasValue(existing, Trim(draft.value))
    ensures CheckNewDuration(draft, existing).Success? ==>
      CheckNewDuration(draft, existing).value.name == Trim(draft.name)
  {
  }

  /** A key that an entry already uses is refused after trimming, whatever
      the label: " 1-month " names the existing "1-month". */
  lemma ExistingValueRefused(draft: Draft, existing: seq<DurationOption>, i: int)
    requires 0 <= i < |existing|
    requires Trim(draft.name) != [] && Trim(draft.value) != [] && Trim(draft.value) == existing[i].value
    ensures CheckNewDuration(draft, existing) == Failure(DuplicateValue)
  {
  }

  class Dialog {
    var isOpen: bool
    var draft: Draft
    var durationError: string

    /** Closed, with the empty draft and no error. */
    constructor ()
      ensures !isOpen && draft == EmptyDraft && durationError == ""
    {
      isOpen := false;
      draft := EmptyDraft;
      durationError := "";
    }

    /** The dialog's own open/close requests. */
    method SetOpen(open: bool)
      modifies this`isOpen
      ensures isOpen == open
    {
      isOpen := open;
    }

    /** Typing a label replaces it and clears any error. */
    method TypeLabel(text: string)
      modifies this`draft, this`durationError
      ensures draft == old(draft).(name := text) && durationError == ""
    {
      draft := draft.(name := text);
      if durationError != "" {
        durationError := "";
      }
    }

    /** Typing a key replaces it and clears any error. */
    method TypeValue(text: string)
      modifies this`draft, this`durationError
      ensures draft == old(draft).(value := text) && durationError == ""
    {
      draft := draft.(value := text);
      if durationError != "" {
        durationError := "";
      }
    }

    /** Typing in the days field stores `DaysField` of its parse; the error
        line is left as it is. */
    method TypeDays(parsed: Option<int>)
      modifies this`draft
      ensures draft == old(draft).(days := DaysField(parsed))
    {
      draft := draft.(days := DaysField(parsed));
    }

    /** `addCustomDuration`: on a failed check shows the error and keeps
        everything else; on success hands the trimmed entry to the caller
        (the result), resets the draft, clears the error and closes. */
    method AddCustomDuration(existing: seq<DurationOption>) returns (added: Option<DurationOption>)
      modifies this
      ensures var checked := CheckNewDuration(old(draft), existing);
        if checked.Failure? then
          added.None? && durationError == ErrorMessage(checked.error) && draft == old(draft) && isOpen == old(isOpen)
        else
          added == Some(checked.value) && draft == EmptyDraft && durationError == "" && !isOpen
    {
      var checked := CheckNewDuration(draft, existing);
      if checked.Success? {
        added := Some(checked.value);
        draft := EmptyDraft;
        durationError := "";
        isOpen := false;
      } else {
        added := None;
        durationError := ErrorMessage(checked.error);
      }
    }

    /** `handleClose`: closes, clears the error and resets the draft. */
    method HandleClose()
      modifies this
      ensures !isOpen && draft == EmptyDraft && durationError == ""
    {
      isOpen := false;
      durationError := "";
      draft := EmptyDraft;
    }

    /** The delete button of the entry at `index` removes that entry. */
    method RemoveEntry(store: Store.SubscriptionStore, index: int)
      requires 0 <= index < |store.customDurations|
      modifies store`customDurations
      ensures store.customDurations == old(store.customDurations[..index] + store.customDurations[index + 1..])
    {
      store.RemoveCustomDuration(index);
    }
  }
}
