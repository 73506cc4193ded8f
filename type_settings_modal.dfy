/** The "Plan Types" dialog of src/components/TypeSettingsModal.tsx: its
    input, its error line and its open flag, and the validation that runs
    before a new type is handed to the caller. */
module TypeSettingsModal {
  import opened Wrappers
  import opened Strings
  import Seqs
  import Store

  datatype TypeError = EmptyType | DuplicateType

  /** The text the dialog shows for each error. */
  function ErrorMessage(e: TypeError): (m: string)
    ensures m != ""
  {
    match e
    case EmptyType => "Plan type cannot be empty"
    case DuplicateType => "This plan type already exists"
  }

  /** The checks of `addCustomType`, in order: the trimmed input must be
      non-empty, then must not already be a type (compared exactly). */
  function CheckNewType(input: string, customTypes: seq<string>): (r: Result<string, TypeError>)
    ensures r == Failure(EmptyType) <==> Trim(input) == []
    ensures r == Failure(DuplicateType) <==> Trim(input) != [] && Trim(input) in customTypes
    ensures r.Success? <==> Trim(input) != [] && Trim(input) !in customTypes
    ensures r.Success? ==> r.value == Trim(input)
  {
    var trimmed := Trim(input);
    if trimmed == [] then Failure(EmptyType)
    else if trimmed in customTypes then Failure(DuplicateType)
    else Success(trimmed)
  }

  /** What the dialog accepts is trimmed, non-empty and new, so adding it
      keeps a vocabulary without repetitions free of them, and entering it
      again is refused as a duplicate. */
  lemma AcceptedTypeIsNew(input: string, customTypes: seq<string>)
    requires Seqs.Distinct(customTypes)
    requires CheckNewType(input, customTypes).Success?
    ensures var t := CheckNewType(input, customTypes).value;
      Trim(t) == t && t != [] && Seqs.Distinct(customTypes + [t])
      && CheckNewType(input, customTypes + [t]) == Failure(DuplicateType)
      && CheckNewType(t, customTypes + [t]) == Failure(DuplicateType)
  {
    var t := CheckNewType(input, customTypes).value;
    TrimIdempotent(input);
    Store.TypeVocabularyStaysDistinct(customTypes, t);
  }

  class Dialog {
    var isOpen: bool
    var newCustomType: string
    var typeError: string

    /** Closed, with an empty input and no error. */
    constructor ()
      ensures !isOpen && newCustomType == "" && typeError == ""
    {
      isOpen := false;
      newCustomType := "";
      typeError := "";
    }

    /** The dialog's own open/close requests. */
    method SetOpen(open: bool)
      modifies this`isOpen
      ensures isOpen == open
    {
      isOpen := open;
    }

    /** Typing replaces the input and clears any error. */
    method Type(text: string)
      modifies this`newCustomType, this`typeError
      ensures newCustomType == text && typeError == ""
    {
      newCustomType := text;
      if typeError != "" {
        typeError := "";
      }
    }

    /** `addCustomType`: on a failed check shows the error and keeps
        everything else; on success hands the trimmed type to the caller
        (the result), clears input and error and closes. */
    method AddCustomType(customTypes: seq<string>) returns (added: Option<string>)
      modifies this
      ensures CheckNewType(old(newCustomType), customTypes).Failure? ==>
        added.None? && typeError == ErrorMessage(CheckNewType(old(newCustomType), customTypes).error)
        && newCustomType == old(newCustomType) && isOpen == old(isOpen)
      ensures CheckNewType(old(newCustomType), customTypes).Success? ==>
        added == Some(CheckNewType(old(newCustomType), customTypes).value)
        && newCustomType == "" && typeError == "" && !isOpen
    {
      var trimmed := Trim(newCustomType);
      if trimmed == [] {
        typeError := ErrorMessage(EmptyType);
        return None;
      }
      if trimmed in customTypes {
        typeError := ErrorMessage(DuplicateType);
        return None;
      }
      added := Some(trimmed);
      newCustomType := "";
      typeError := "";
      isOpen := false;
    }

    /** `handleClose`: closes and clears input and error. */
    method HandleClose()
      modifies this
      ensures !isOpen && newCustomType == "" && typeError == ""
    {
      isOpen := false;
      typeError := "";
      newCustomType := "";
    }
  }
}
