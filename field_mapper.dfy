/**
 * The field-mapping pass of the Tally webhook handler as the handler runs it:
 * a loop over the submission's fields that updates one `formData` record in
 * place, with a nested loop over the selected ids of a CHECKBOXES field.
 * Each method is proved to compute what module MapperSpec specifies; the
 * properties of that specification are proved in MapperProperties.
 */
module FieldMapper {
  import opened Optional
  import opened JsText
  import opened Tally
  import opened MapperSpec
  import MapperProperties

  /** One iteration of `fields.forEach` (lines 49-106): the record after field is processed. */
  method MapOneField(formData: Record, field: Field) returns (next: Record)
    ensures next == MapField(formData, field)
  {
    next := formData;
    var labelText := LabelText(field);

    // EMAIL: type INPUT_EMAIL, else a label mentioning "email" with an '@' in the value.
    if !HasEmail(next) {
      if field.fieldType == "INPUT_EMAIL" && field.value.Str? {
        next := next.(email := Some(NormaliseEmail(field.value.s)));
      } else if Contains(labelText, "email") && field.value.Str? && Contains(field.value.s, "@") {
        next := next.(email := Some(NormaliseEmail(field.value.s)));
      }
    }
    assert next == ApplyEmail(formData, field);
    ghost var afterEmail := next;

    // The label chain: at most one of its branches runs.
    match LabelRule(labelText) {
    case NameRule =>
      next := next.(firstName := field.value);
    case PhoneRule =>
      next := next.(phone := field.value);
    case GenderRule =>
      var chosen := Resolve(field.value, field.options);
      if chosen.Some? {
        next := next.(gender := chosen.value);
      }
    case AreaRule =>
      var chosen := Resolve(field.value, field.options);
      if chosen.Some? {
        next := next.(area := chosen.value);
      }
    case AgeRule =>
      var chosen := Resolve(field.value, field.options);
      if chosen.Some? {
        next := next.(ageRange := chosen.value);
      }
    case PrivacyRule =>
      next := next.(dataProcessingConsent := Some(field.value == Bool(true)));
    case WomenRule =>
      next := next.(womenOnlyFeaturesConsent := Some(field.value == Bool(true)));
    case NoRule =>
    }
    assert next == ApplyLabel(afterEmail, field);
    ghost var afterLabel := next;

    // Checkboxes: every selected option may raise a consent flag.
    if field.fieldType == "CHECKBOXES" && field.value.List? {
      next := ScanSelected(next, field.options, field.value.items);
    }
    assert next == ApplyCheckboxes(afterLabel, field);
  }

  /** Lines 94-104: the loop over the selected ids of a CHECKBOXES field. */
  method ScanSelected(formData: Record, options: Option<seq<Opt>>, ids: seq<string>) returns (next: Record)
    ensures next == Scan(formData, options, ids)
  {
    next := formData;
    var j := 0;
    while j < |ids|
      invariant 0 <= j <= |ids|
      invariant Scan(next, options, ids[j..]) == Scan(formData, options, ids)
    {
      assert ids[j..] == [ids[j]] + ids[j + 1..];
      var selected := if options.Some? then Find(options.value, ids[j]) else None;
      if selected.Some? {
        var optionText := Lower(selected.value.text);
        if IsPrivacyText(optionText) {
          next := next.(dataProcessingConsent := Some(true));
        } else if IsWomenText(optionText) {
          next := next.(womenOnlyFeaturesConsent := Some(true));
        }
      }
      j := j + 1;
    }
    assert ids[j..] == [];
  }

  /**
   * `fields.forEach(...)` over an empty `formData` (lines 47-106). The record
   * holds an email exactly when some field offers a non-empty one, and then it
   * is the first such field's.
   */
  method MapFields(fields: seq<Field>) returns (formData: Record)
    ensures formData == MapAll(EmptyRecord, fields)
    ensures HasEmail(formData) <==> exists k :: 0 <= k < |fields| && NonEmptyCandidate(fields[k])
    ensures HasEmail(formData) ==> formData.email == EmailCandidate(fields[FirstEmailIndex(fields)])
  {
    formData := EmptyRecord;
    var i := 0;
    while i < |fields|
      invariant 0 <= i <= |fields|
      invariant MapAll(formData, fields[i..]) == MapAll(EmptyRecord, fields)
    {
      assert fields[i..][0] == fields[i] && fields[i..][1..] == fields[i + 1..];
      formData := MapOneField(formData, fields[i]);
      i := i + 1;
    }
    assert fields[i..] == [];
    MapperProperties.MappedEmail(EmptyRecord, fields);
    MapperProperties.EmailFoundIff(fields);
  }
}
