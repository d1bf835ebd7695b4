/**
 * The field mapping of the Tally webhook handler (the `fields.forEach` pass of
 * netlify/functions/tally-webhook.js), stated as pure functions: one field's
 * effect on the record being built, and the left-to-right pass over all fields.
 * The imperative pass in module FieldMapper is proved equal to MapAll.
 */
module MapperSpec {
  import opened Optional
  import opened JsText
  import opened Tally

  /** A property of the record: missing (`undefined`), `null`, or a string. */
  datatype Prop = Unset | Null | Text(text: string)

  /** The `formData` object the handler builds and finally inserts. */
  datatype Record = Record(
    email: Option<string>,
    firstName: Value,
    phone: Value,
    gender: Prop,
    area: Prop,
    ageRange: Prop,
    dataProcessingConsent: Option<bool>,
    womenOnlyFeaturesConsent: Option<bool>,
    referralSource: Prop,
    ipAddress: Prop,
    userAgent: Prop)

  /** `const formData = {}`. */
  const EmptyRecord: Record :=
    Record(None, Absent, Absent, Unset, Unset, Unset, None, None, Unset, Unset, Unset)

  /** `!!formData.email`: an email is recorded and it is not the empty string. */
  predicate HasEmail(r: Record) {
    r.email.Some? && r.email.value != ""
  }

  /**
   * `field.label?.toLowerCase() || ''`: the lower-cased label, or the empty
   * string when the field has no label.
   */
  function LabelText(f: Field): (t: string)
    ensures f.fieldLabel.None? ==> t == ""
    ensures f.fieldLabel.Some? ==> IsLowerCasing(f.fieldLabel.value, t)
  {
    if f.fieldLabel.Some? then Lower(f.fieldLabel.value) else ""
  }

  // ---------------------------------------------------------------- email

  /** Trimmed at both ends and free of upper-case letters. */
  predicate IsNormalisedEmail(e: string) {
    IsTrimmed(e) && forall i :: 0 <= i < |e| ==> !IsAsciiUpper(e[i])
  }

  /**
   * `String(value).trim().toLowerCase()`: the stretch of s between its leading
   * and trailing whitespace, lower-cased character by character.
   */
  function NormaliseEmail(s: string): (e: string)
    ensures IsNormalisedEmail(e)
    ensures e == "" <==> AllWhitespace(s)
  {
    LowerKeepsShape(Trim(s));
    Lower(Trim(s))
  }

  /**
   * The normalised email is the stretch of s between its leading and trailing
   * whitespace, lower-cased character by character.
   */
  lemma NormalisedEmailContent(s: string)
    ensures exists i :: 0 <= i <= |s| && LoweredStretchAt(s, NormaliseEmail(s), i)
  {
    var t := Trim(s);
    var i := |s| - |TrimStart(s)|;
    TrimIsStretch(s);
    LowerOfStretch(s, t, i);
    assert NormaliseEmail(s) == Lower(t);
  }

  /**
   * e is s[i..i + |e|] with every character passed through LowerChar, and
   * only whitespace lies before and after that stretch.
   */
  predicate LoweredStretchAt(s: string, e: string, i: int) {
    0 <= i <= |s| - |e| && AllWhitespace(s[..i]) && AllWhitespace(s[i + |e|..])
    && forall k :: 0 <= k < |e| ==> e[k] == LowerChar(s[i + k])
  }

  /** An address already in normal form is its own normal form. */
  lemma NormaliseIdempotent(s: string)
    requires IsNormalisedEmail(s)
    ensures NormaliseEmail(s) == s
  {
    TrimOfTrimmed(s);
    LowerOfLowerCase(s);
  }

  /** Lower-casing a stretch of s lower-cases the characters of s it covers. */
  lemma LowerOfStretch(s: string, t: string, i: int)
    requires StretchAt(s, t, i)
    ensures LoweredStretchAt(s, Lower(t), i)
  {
    forall k | 0 <= k < |t| ensures Lower(t)[k] == LowerChar(s[i + k]) {
      assert t[k] == s[i..i + |t|][k] == s[i + k];
    }
  }

  /**
   * The email a field records when none is recorded yet: a string value of an
   * INPUT_EMAIL field, or else a string value containing '@' of a field whose
   * label mentions "email".
   */
  function EmailCandidate(f: Field): Option<string> {
    if f.fieldType == "INPUT_EMAIL" && f.value.Str? then
      Some(NormaliseEmail(f.value.s))
    else if Contains(LabelText(f), "email") && f.value.Str? && Contains(f.value.s, "@") then
      Some(NormaliseEmail(f.value.s))
    else
      None
  }

  /** The field would record an email that is not empty (and so stops later ones). */
  predicate NonEmptyCandidate(f: Field) {
    EmailCandidate(f).Some? && EmailCandidate(f).value != ""
  }

  /** The index of the first field with a non-empty email candidate, or |fs| when none has one. */
  function FirstEmailIndex(fs: seq<Field>): (k: nat)
    ensures k <= |fs|
    ensures k < |fs| ==> NonEmptyCandidate(fs[k])
    ensures forall j :: 0 <= j < k ==> !NonEmptyCandidate(fs[j])
  {
    if fs == [] then 0
    else if NonEmptyCandidate(fs[0]) then 0
    else
      var rest := fs[1..];
      var k := FirstEmailIndex(rest);
      assert forall j :: 0 <= j < k ==> fs[j + 1] == rest[j];
      k + 1
  }

  /**
   * Lines 56-64: only the email changes, and only while no non-empty email is
   * recorded and the field offers one (a blank one included).
   */
  function ApplyEmail(r: Record, f: Field): (r': Record)
    ensures r' == r.(email := r'.email)
    ensures HasEmail(r) || EmailCandidate(f).None? ==> r' == r
    ensures !HasEmail(r) && EmailCandidate(f).Some? ==> r'.email == EmailCandidate(f)
  {
    if !HasEmail(r) && EmailCandidate(f).Some? then r.(email := EmailCandidate(f)) else r
  }

  // ---------------------------------------------------------------- choices

  /** `options.find(opt => opt.id === id)`. */
  function Find(options: seq<Opt>, id: string): (r: Option<Opt>)
    ensures r.None? <==> forall k :: 0 <= k < |options| ==> options[k].id != id
    ensures r.Some? ==> exists k :: 0 <= k < |options| && options[k] == r.value && r.value.id == id
                                    && forall j :: 0 <= j < k ==> options[j].id != id
  {
    if options == [] then None
    else if options[0].id == id then
      assert 0 < |options| && options[0].id == id;
      Some(options[0])
    else
      var r := Find(options[1..], id);
      assert forall k :: 1 <= k < |options| ==> options[k] == options[1..][k - 1];
      r
  }

  /**
   * `field.value[0]` when `field.value && field.value.length > 0`: the first
   * selected id of an array, or the first character of a non-empty string.
   */
  function FirstSelected(v: Value): (r: Option<string>)
    ensures r.Some? <==> (v.List? && v.items != []) || (v.Str? && v.s != "")
    ensures v.List? && v.items != [] ==> r.value == v.items[0]
    ensures v.Str? && v.s != "" ==> |r.value| == 1 && r.value[0] == v.s[0]
  {
    match v
    case List(ids) => if ids != [] then Some(ids[0]) else None
    case Str(s) => if s != "" then Some([s[0]]) else None
    case _ => None
  }

  /**
   * Lines 72-74 (and 77-79, 82-84): the new value of a choice attribute, or
   * None when the attribute is left as it was.
   */
  function Resolve(v: Value, options: Option<seq<Opt>>): (r: Option<Prop>)
    ensures r.None? <==> options.None? || FirstSelected(v).None?
    ensures r.Some? ==> !r.value.Unset?
    ensures r.Some? && r.value.Null? ==>
      forall k :: 0 <= k < |options.value| ==> options.value[k].id != FirstSelected(v).value
    ensures r.Some? && r.value.Text? ==>
      exists k :: 0 <= k < |options.value| && options.value[k].id == FirstSelected(v).value
                  && options.value[k].text == r.value.text
                  && forall j :: 0 <= j < k ==> options.value[j].id != FirstSelected(v).value
  {
    if options.Some? && FirstSelected(v).Some? then
      match Find(options.value, FirstSelected(v).value)
      case Some(o) => Some(Text(o.text))
      case None => Some(Null)
    else
      None
  }

  // ---------------------------------------------------------------- labels

  /** The branches of the label chain, lines 67-90, plus "no branch". */
  datatype Rule = NameRule | PhoneRule | GenderRule | AreaRule | AgeRule | PrivacyRule | WomenRule | NoRule

  predicate IsPrivacyText(t: string) {
    Contains(t, "privacy") || Contains(t, "data processing")
  }

  predicate IsWomenText(t: string) {
    Contains(t, "women") || Contains(t, "marketing")
  }

  /** The condition of a branch of the label chain, on the lower-cased label. */
  predicate Matches(rule: Rule, text: string) {
    match rule
    case NameRule => Contains(text, "first name") || (Contains(text, "name") && !Contains(text, "form"))
    case PhoneRule => Contains(text, "phone")
    case GenderRule => Contains(text, "gender")
    case AreaRule => Contains(text, "area")
    case AgeRule => Contains(text, "age")
    case PrivacyRule => IsPrivacyText(text)
    case WomenRule => IsWomenText(text)
    case NoRule => false
  }

  /** The order in which the chain tries its branches. */
  const Priority: seq<Rule> := [NameRule, PhoneRule, GenderRule, AreaRule, AgeRule, PrivacyRule, WomenRule]

  /** The branch of the else-if chain a label takes: the first in Priority whose condition holds. */
  function LabelRule(text: string): (r: Rule)
    ensures r == NoRule <==> forall k :: 0 <= k < |Priority| ==> !Matches(Priority[k], text)
    ensures r != NoRule ==>
      exists k :: 0 <= k < |Priority| && Priority[k] == r && Matches(r, text)
                  && forall j :: 0 <= j < k ==> !Matches(Priority[j], text)
  {
    if Matches(NameRule, text) then assert Priority[0] == NameRule; NameRule
    else if Matches(PhoneRule, text) then assert Priority[1] == PhoneRule; PhoneRule
    else if Matches(GenderRule, text) then assert Priority[2] == GenderRule; GenderRule
    else if Matches(AreaRule, text) then assert Priority[3] == AreaRule; AreaRule
    else if Matches(AgeRule, text) then assert Priority[4] == AgeRule; AgeRule
    else if Matches(PrivacyRule, text) then assert Priority[5] == PrivacyRule; PrivacyRule
    else if Matches(WomenRule, text) then assert Priority[6] == WomenRule; WomenRule
    else NoRule
  }

  /**
   * Lines 66-90: the one attribute the label chain sets. The email and the
   * metadata are never touched, and a label matching no branch changes nothing.
   */
  function ApplyLabel(r: Record, f: Field): (r': Record)
    ensures r'.email == r.email && r'.referralSource == r.referralSource
    ensures r'.ipAddress == r.ipAddress && r'.userAgent == r.userAgent
    ensures LabelRule(LabelText(f)) == NoRule ==> r' == r
  {
    match LabelRule(LabelText(f))
    case NameRule => r.(firstName := f.value)
    case PhoneRule => r.(phone := f.value)
    case GenderRule =>
      var p := Resolve(f.value, f.options);
      if p.Some? then r.(gender := p.value) else r
    case AreaRule =>
      var p := Resolve(f.value, f.options);
      if p.Some? then r.(area := p.value) else r
    case AgeRule =>
      var p := Resolve(f.value, f.options);
      if p.Some? then r.(ageRange := p.value) else r
    case PrivacyRule => r.(dataProcessingConsent := Some(f.value == Bool(true)))
    case WomenRule => r.(womenOnlyFeaturesConsent := Some(f.value == Bool(true)))
    case NoRule => r
  }

  // ---------------------------------------------------------------- checkboxes

  /** The lower-cased text of the option with the given id, if `options` has one. */
  function SelectedText(options: Option<seq<Opt>>, id: string): Option<string> {
    if options.None? then None
    else
      match Find(options.value, id)
      case Some(o) => Some(Lower(o.text))
      case None => None
  }

  /** Selecting id sets `data_processing_consent`. */
  predicate SelectsPrivacy(options: Option<seq<Opt>>, id: string) {
    SelectedText(options, id).Some? && IsPrivacyText(SelectedText(options, id).value)
  }

  /** Selecting id sets `women_only_features_consent`. */
  predicate SelectsWomen(options: Option<seq<Opt>>, id: string) {
    SelectedText(options, id).Some? && !IsPrivacyText(SelectedText(options, id).value)
    && IsWomenText(SelectedText(options, id).value)
  }

  /**
   * Lines 95-103: the effect of one selected id. An option whose lower-cased
   * text mentions privacy or data processing raises the first flag; otherwise
   * one mentioning women or marketing raises the second; an id with no option
   * changes nothing.
   */
  function SelectOne(r: Record, options: Option<seq<Opt>>, id: string): (r': Record)
    ensures SelectedText(options, id).None? ==> r' == r
    ensures SelectedText(options, id).Some? && IsPrivacyText(SelectedText(options, id).value) ==>
      r' == r.(dataProcessingConsent := Some(true))
    ensures SelectedText(options, id).Some? && !IsPrivacyText(SelectedText(options, id).value) ==>
      r' == if IsWomenText(SelectedText(options, id).value) then r.(womenOnlyFeaturesConsent := Some(true)) else r
  {
    if SelectsPrivacy(options, id) then r.(dataProcessingConsent := Some(true))
    else if SelectsWomen(options, id) then r.(womenOnlyFeaturesConsent := Some(true))
    else r
  }

  /**
   * Lines 94-104: every selected id in turn. Only the two consent flags change;
   * each becomes true exactly when some selected option asks for it, and is
   * otherwise left as it was.
   */
  function Scan(r: Record, options: Option<seq<Opt>>, ids: seq<string>): (r': Record)
    ensures r' == r.(dataProcessingConsent := r'.dataProcessingConsent,
                     womenOnlyFeaturesConsent := r'.womenOnlyFeaturesConsent)
    ensures r'.dataProcessingConsent ==
      if exists id :: id in ids && SelectsPrivacy(options, id) then Some(true) else r.dataProcessingConsent
    ensures r'.womenOnlyFeaturesConsent ==
      if exists id :: id in ids && SelectsWomen(options, id) then Some(true) else r.womenOnlyFeaturesConsent
    decreases |ids|
  {
    if ids == [] then r
    else
      assert forall id :: id in ids <==> id == ids[0] || id in ids[1..];
      Scan(SelectOne(r, options, ids[0]), options, ids[1..])
  }

  /**
   * Line 93: only a CHECKBOXES field whose value is an array is scanned. Only
   * the two consent flags change, each to true exactly when the field raises it.
   */
  function ApplyCheckboxes(r: Record, f: Field): (r': Record)
    ensures r' == r.(dataProcessingConsent := r'.dataProcessingConsent,
                     womenOnlyFeaturesConsent := r'.womenOnlyFeaturesConsent)
    ensures r'.dataProcessingConsent == if ChecksPrivacy(f) then Some(true) else r.dataProcessingConsent
    ensures r'.womenOnlyFeaturesConsent == if ChecksWomen(f) then Some(true) else r.womenOnlyFeaturesConsent
  {
    if f.fieldType == "CHECKBOXES" && f.value.List? then Scan(r, f.options, f.value.items) else r
  }

  /** A CHECKBOXES field with an array value that selects a privacy option. */
  predicate ChecksPrivacy(f: Field) {
    f.fieldType == "CHECKBOXES" && f.value.List? && exists id :: id in f.value.items && SelectsPrivacy(f.options, id)
  }

  /** A CHECKBOXES field with an array value that selects a women or marketing option. */
  predicate ChecksWomen(f: Field) {
    f.fieldType == "CHECKBOXES" && f.value.List? && exists id :: id in f.value.items && SelectsWomen(f.options, id)
  }

  // ---------------------------------------------------------------- the pass

  /**
   * The body of `fields.forEach`: email rule, label chain, checkbox scan, in
   * that order. Only the email rule touches the email, and nothing touches the
   * metadata.
   */
  function MapField(r: Record, f: Field): (r': Record)
    ensures r'.email == ApplyEmail(r, f).email
    ensures r'.referralSource == r.referralSource && r'.ipAddress == r.ipAddress && r'.userAgent == r.userAgent
  {
    ApplyCheckboxes(ApplyLabel(ApplyEmail(r, f), f), f)
  }

  /** `fields.forEach(...)` starting from r. The pass never sets the metadata. */
  function MapAll(r: Record, fs: seq<Field>): (r': Record)
    ensures r'.referralSource == r.referralSource && r'.ipAddress == r.ipAddress && r'.userAgent == r.userAgent
    decreases |fs|
  {
    if fs == [] then r else MapAll(MapField(r, fs[0]), fs[1..])
  }
}
