/**
 * The new-lead form: its initial fields, `handleChange` and the
 * `isSubmitting` flag around `handleSubmit`.
 */
module NewLeadForm {
  import opened Wrappers

  const InitialFormData: map<string, string> := map[
    "firstName" := "", "lastName" := "", "email" := "", "phone" := "", "alternatePhone" := "",
    "source" := "Website", "priority" := "MEDIUM", "status" := "NEW"
  ]

  const LeadsPath := "/dashboard/leads"

  /** `{ ...prev, [field]: value }`: `field` takes `value`, every other field keeps its own. */
  function ChangeField(data: map<string, string>, field: string, value: string): (r: map<string, string>)
    ensures r.Keys == data.Keys + {field} && r[field] == value
    ensures forall f :: f in data && f != field ==> r[f] == data[f]
  {
    data[field := value]
  }

  /** `if (errors[field]) delete errors[field]`: the field's error goes only
      when there is one that is not empty; the others stay as they were. */
  function ClearError(errors: map<string, string>, field: string): (r: map<string, string>)
    ensures r.Keys <= errors.Keys
    ensures forall f :: f in r ==> r[f] == errors[f]
    ensures field in r <==> field in errors && errors[field] == ""
    ensures forall f :: f in errors && f != field ==> f in r
  {
    if field in errors && errors[field] != "" then errors - {field} else errors
  }

  /** Nothing in the form adds an error, so the error map, empty at the
      start, stays empty after any sequence of changes. */
  lemma ErrorsStayEmpty(fields: seq<string>)
    ensures ClearAll(map[], fields) == map[]
  {
  }

  /** The errors after `handleChange` on each of `fields` in turn. */
  function ClearAll(errors: map<string, string>, fields: seq<string>): (r: map<string, string>)
    ensures r.Keys <= errors.Keys
    decreases |fields|
  {
    if |fields| == 0 then errors else ClearAll(ClearError(errors, fields[0]), fields[1..])
  }

  /** The form's React state, and where it last sent the browser. */
  class NewLeadPage {
    var formData: map<string, string>
    var errors: map<string, string>
    var isSubmitting: bool
    var navigatedTo: Option<string>
    /** Every value written to `isSubmitting`, in order. */
    ghost var submittingWrites: seq<bool>

    constructor ()
      ensures formData == InitialFormData && errors == map[] && !isSubmitting
      ensures navigatedTo == None && submittingWrites == []
    {
      formData := InitialFormData;
      errors := map[];
      isSubmitting := false;
      navigatedTo := None;
      submittingWrites := [];
    }

    method HandleChange(field: string, value: string)
      modifies this
      ensures formData == ChangeField(old(formData), field, value)
      ensures errors == ClearError(old(errors), field)
      ensures isSubmitting == old(isSubmitting) && navigatedTo == old(navigatedTo)
      ensures submittingWrites == old(submittingWrites)
    {
      formData := formData[field := value];
      if field in errors && errors[field] != "" {
        errors := errors - {field};
      }
    }

    /** Sets the flag, logs the data and opens the leads list, and clears the
        flag again in `finally`; the form data and errors are untouched. */
    method HandleSubmit()
      modifies this
      ensures submittingWrites == old(submittingWrites) + [true, false]
      ensures !isSubmitting
      ensures navigatedTo == Some(LeadsPath)
      ensures formData == old(formData) && errors == old(errors)
    {
      isSubmitting := true;
      submittingWrites := submittingWrites + [true];
      navigatedTo := Some(LeadsPath);
      isSubmitting := false;
      submittingWrites := submittingWrites + [false];
    }
  }
}
