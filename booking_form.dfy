/** The booking form: four fields edited one at a time, and the submit guard. */
module BookingForm {
  import opened Types
  import opened Constants
  import opened JsText

  /** `formData`: what the form hands to its `onSubmit`. */
  datatype FormData = FormData(name: string, phone: string, date: string, time: string)

  /** `handleSubmit` returns early when the name or the phone is the empty
      string; whitespace is not checked. */
  predicate CanSubmit(f: FormData) {
    f.name != "" && f.phone != ""
  }

  /** A name and phone made only of whitespace pass the guard unless they
      are empty, although each trims to the empty string. */
  lemma WhitespaceIsNotBlocked(f: FormData)
    requires IsBlank(f.name) && IsBlank(f.phone)
    ensures CanSubmit(f) <==> f.name != "" && f.phone != ""
    ensures Trim(f.name) == "" && Trim(f.phone) == ""
  {
    TrimEmptyIffBlank(f.name);
    TrimEmptyIffBlank(f.phone);
  }

  class Form {
    var formData: FormData

    /** The select box offers only the catalogue slots. */
    ghost predicate Valid()
      reads this
    {
      formData.time in TimeSlots
    }

    /** Initial state: empty name and phone, today's date, the first slot. */
    constructor (today: string)
      ensures Valid()
      ensures formData == FormData("", "", today, TimeSlots[0])
    {
      formData := FormData("", "", today, TimeSlots[0]);
    }

    method ChangeName(value: string)
      requires Valid()
      modifies this
      ensures Valid()
      ensures formData == old(formData).(name := value)
    {
      formData := formData.(name := value);
    }

    method ChangePhone(value: string)
      requires Valid()
      modifies this
      ensures Valid()
      ensures formData == old(formData).(phone := value)
    {
      formData := formData.(phone := value);
    }

    method ChangeDate(value: string)
      requires Valid()
      modifies this
      ensures Valid()
      ensures formData == old(formData).(date := value)
    {
      formData := formData.(date := value);
    }

    /** The select's change event carries one of its options. */
    method ChangeTime(value: string)
      requires Valid() && value in TimeSlots
      modifies this
      ensures Valid()
      ensures formData == old(formData).(time := value)
    {
      formData := formData.(time := value);
    }

    /** `handleSubmit`: hands the record, unchanged, to `onSubmit` exactly
        when both the name and the phone are non-empty. */
    method HandleSubmit() returns (submitted: Option<FormData>)
      ensures submitted.Some? <==> CanSubmit(formData)
      ensures submitted.Some? ==> submitted.value == formData
    {
      if !CanSubmit(formData) {
        return None;
      }
      submitted := Some(formData);
    }
  }
}
