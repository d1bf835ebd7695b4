/**
 * What the field-mapping pass promises: first-wins for the email, the order of
 * the label chain and last-wins for the attributes it sets, choice resolution
 * through the field's own options, strict consent, and the checkbox scan.
 */
module MapperProperties {
  import opened Optional
  import opened JsText
  import opened Tally
  import opened MapperSpec

  // ---------------------------------------------------------------- folds

  /** A left fold of any step function over a sequence. */
  function Fold<S, F>(step: (S, F) -> S, s: S, fs: seq<F>): S
    decreases |fs|
  {
    if fs == [] then s else Fold(step, step(s, fs[0]), fs[1..])
  }

  /** The pass is the fold of MapField. */
  lemma {:induction false} MapAllIsFold(r: Record, fs: seq<Field>)
    ensures MapAll(r, fs) == Fold(MapField, r, fs)
    decreases |fs|
  {
    if fs != [] {
      MapAllIsFold(MapField(r, fs[0]), fs[1..]);
    }
  }

  /** Through a fold, a view that every step keeps while a condition holds keeps its value. */
  lemma {:induction false} FoldStable<S, F, V>(step: (S, F) -> S, get: S -> V, keep: S -> bool, s: S, fs: seq<F>)
    requires forall x, f :: keep(x) ==> keep(step(x, f)) && get(step(x, f)) == get(x)
    requires keep(s)
    ensures get(Fold(step, s, fs)) == get(s)
    decreases |fs|
  {
    if fs != [] {
      FoldStable(step, get, keep, step(s, fs[0]), fs[1..]);
    }
  }

  /** Through a fold, a view that no step writes keeps its value. */
  lemma {:induction false} FoldUntouched<S, F, V>(step: (S, F) -> S, get: S -> V, write: F -> Option<V>, s: S, fs: seq<F>)
    requires forall x, f :: get(step(x, f)) == if write(f).Some? then write(f).value else get(x)
    requires forall j :: 0 <= j < |fs| ==> write(fs[j]).None?
    ensures get(Fold(step, s, fs)) == get(s)
    decreases |fs|
  {
    if fs != [] {
      assert forall j :: 0 <= j < |fs| - 1 ==> fs[1..][j] == fs[j + 1];
      FoldUntouched(step, get, write, step(s, fs[0]), fs[1..]);
    }
  }

  /** Through a fold, a view holds what the last step writing it wrote. */
  lemma {:induction false} FoldLastWrite<S, F, V>(step: (S, F) -> S, get: S -> V, write: F -> Option<V>, s: S, fs: seq<F>, k: nat)
    requires forall x, f :: get(step(x, f)) == if write(f).Some? then write(f).value else get(x)
    requires k < |fs| && write(fs[k]).Some?
    requires forall j :: k < j < |fs| ==> write(fs[j]).None?
    ensures get(Fold(step, s, fs)) == write(fs[k]).value
    decreases |fs|
  {
    var rest := fs[1..];
    if k == 0 {
      assert forall j :: 0 <= j < |rest| ==> rest[j] == fs[j + 1];
      FoldUntouched(step, get, write, step(s, fs[0]), rest);
    } else {
      assert forall j :: k - 1 <= j < |rest| ==> rest[j] == fs[j + 1];
      FoldLastWrite(step, get, write, step(s, fs[0]), rest, k - 1);
    }
  }

  // ---------------------------------------------------------------- email

  /**
   * A field offers an email exactly when its value is a string and it is an
   * INPUT_EMAIL field or its label mentions "email" and the value has an '@';
   * what it offers is the normalised value.
   */
  lemma OfferedEmail(f: Field)
    ensures EmailCandidate(f).Some? <==>
      f.value.Str? && (f.fieldType == "INPUT_EMAIL" || (Contains(LabelText(f), "email") && Contains(f.value.s, "@")))
    ensures EmailCandidate(f).Some? ==> EmailCandidate(f).value == NormaliseEmail(f.value.s)
  {
  }

  /** Once a non-empty email is recorded, no later field changes it. */
  lemma EmailKept(r: Record, fs: seq<Field>)
    requires HasEmail(r)
    ensures MapAll(r, fs).email == r.email
  {
    forall x, f | HasEmail(x) ensures HasEmail(MapField(x, f)) && MapField(x, f).email == x.email {
    }
    MapAllIsFold(r, fs);
    FoldStable(MapField, (x: Record) => x.email, HasEmail, r, fs);
  }

  /**
   * Starting without an email, the pass records the email offered by the first
   * field that offers a non-empty one; when no field does, it records none
   * (at most the empty string left by a blank value).
   */
  lemma {:induction false} MappedEmail(r: Record, fs: seq<Field>)
    requires !HasEmail(r)
    ensures FirstEmailIndex(fs) < |fs| ==> MapAll(r, fs).email == EmailCandidate(fs[FirstEmailIndex(fs)])
    ensures FirstEmailIndex(fs) == |fs| ==> !HasEmail(MapAll(r, fs))
    decreases |fs|
  {
    if fs != [] {
      var r1 := MapField(r, fs[0]);
      var rest := fs[1..];
      assert MapAll(r, fs) == MapAll(r1, rest);
      if NonEmptyCandidate(fs[0]) {
        assert FirstEmailIndex(fs) == 0;
        EmailKept(r1, rest);
      } else {
        assert !HasEmail(r1);
        MappedEmail(r1, rest);
        var k := FirstEmailIndex(rest);
        assert FirstEmailIndex(fs) == k + 1;
        if k < |rest| {
          assert fs[k + 1] == rest[k];
        }
      }
    }
  }

  /** The pass ends with an email exactly when some field offers a non-empty one. */
  lemma EmailFoundIff(fs: seq<Field>)
    ensures HasEmail(MapAll(EmptyRecord, fs)) <==> exists k :: 0 <= k < |fs| && NonEmptyCandidate(fs[k])
  {
    MappedEmail(EmptyRecord, fs);
    var k := FirstEmailIndex(fs);
    if k < |fs| {
      assert NonEmptyCandidate(fs[k]);
    }
  }

  /** First match wins: the email comes from the first field offering a non-empty one. */
  lemma EmailFirstWins(fs: seq<Field>, k: nat)
    requires k < |fs| && NonEmptyCandidate(fs[k])
    requires forall j :: 0 <= j < k ==> !NonEmptyCandidate(fs[j])
    ensures MapAll(EmptyRecord, fs).email == EmailCandidate(fs[k])
  {
    MappedEmail(EmptyRecord, fs);
    assert FirstEmailIndex(fs) == k;
  }

  /**
   * A recorded email is the trimmed, lower-cased string value of one field that
   * is either of type INPUT_EMAIL or labelled "email" with an '@' in its value.
   */
  lemma {:induction false} StoredEmailOrigin(fs: seq<Field>)
    requires HasEmail(MapAll(EmptyRecord, fs))
    ensures IsNormalisedEmail(MapAll(EmptyRecord, fs).email.value)
    ensures exists k :: (0 <= k < |fs| && fs[k].value.Str?
                         && MapAll(EmptyRecord, fs).email == Some(NormaliseEmail(fs[k].value.s))
                         && (fs[k].fieldType == "INPUT_EMAIL"
                             || (Contains(LabelText(fs[k]), "email") && Contains(fs[k].value.s, "@"))))
  {
    MappedEmail(EmptyRecord, fs);
    var j :| 0 <= j < |fs| && NonEmptyCandidate(fs[j]);
    var k := FirstEmailIndex(fs);
    assert k <= j;
  }

  /** A blank email field records the empty string, which does not stop a later field. */
  lemma BlankEmailDoesNotBlock(blank: string, s: string)
    requires forall i :: 0 <= i < |blank| ==> IsWhitespace(blank[i])
    requires exists i :: 0 <= i < |s| && !IsWhitespace(s[i])
    ensures MapField(EmptyRecord, Field("a", None, "INPUT_EMAIL", Str(blank), None)).email == Some("")
    ensures MapAll(EmptyRecord, [Field("a", None, "INPUT_EMAIL", Str(blank), None),
                                 Field("b", None, "INPUT_EMAIL", Str(s), None)]).email
            == Some(NormaliseEmail(s))
  {
    var fs := [Field("a", None, "INPUT_EMAIL", Str(blank), None),
               Field("b", None, "INPUT_EMAIL", Str(s), None)];
    assert EmailCandidate(fs[0]) == Some("");
    EmailFirstWins(fs, 1);
  }

  // ---------------------------------------------------------------- label chain

  /** The attributes the label chain sets. */
  datatype Attr = FirstName | Phone | Gender | Area | AgeRange | DataProcessingConsent | WomenOnlyFeaturesConsent

  /** An attribute's value, whatever its type. */
  datatype AttrValue = AsValue(v: Value) | AsProp(p: Prop) | AsFlag(flag: Option<bool>)

  function Get(r: Record, a: Attr): AttrValue {
    match a
    case FirstName => AsValue(r.firstName)
    case Phone => AsValue(r.phone)
    case Gender => AsProp(r.gender)
    case Area => AsProp(r.area)
    case AgeRange => AsProp(r.ageRange)
    case DataProcessingConsent => AsFlag(r.dataProcessingConsent)
    case WomenOnlyFeaturesConsent => AsFlag(r.womenOnlyFeaturesConsent)
  }

  /** The value the label chain of f assigns to attribute a, when it assigns one. */
  function Written(f: Field, a: Attr): Option<AttrValue> {
    var rule := LabelRule(LabelText(f));
    var choice := Resolve(f.value, f.options);
    match a
    case FirstName => if rule == NameRule then Some(AsValue(f.value)) else None
    case Phone => if rule == PhoneRule then Some(AsValue(f.value)) else None
    case Gender => if rule == GenderRule && choice.Some? then Some(AsProp(choice.value)) else None
    case Area => if rule == AreaRule && choice.Some? then Some(AsProp(choice.value)) else None
    case AgeRange => if rule == AgeRule && choice.Some? then Some(AsProp(choice.value)) else None
    case DataProcessingConsent =>
      if rule == PrivacyRule then Some(AsFlag(Some(f.value == Bool(true)))) else None
    case WomenOnlyFeaturesConsent =>
      if rule == WomenRule then Some(AsFlag(Some(f.value == Bool(true)))) else None
  }

  /** The two flags the checkbox scan may also set. */
  predicate IsConsent(a: Attr) {
    a == DataProcessingConsent || a == WomenOnlyFeaturesConsent
  }

  /** One field's label chain assigns at most one attribute. */
  lemma LabelSetsAtMostOne(f: Field, a: Attr, b: Attr)
    requires Written(f, a).Some? && Written(f, b).Some?
    ensures a == b
  {
  }

  /**
   * The label chain changes exactly the attribute it writes: the email and the
   * metadata stay as they were.
   */
  lemma LabelChainEffect(r: Record, f: Field, a: Attr)
    ensures Get(ApplyLabel(r, f), a) == if Written(f, a).Some? then Written(f, a).value else Get(r, a)
    ensures ApplyLabel(r, f).email == r.email && ApplyLabel(r, f).referralSource == r.referralSource
    ensures ApplyLabel(r, f).ipAddress == r.ipAddress && ApplyLabel(r, f).userAgent == r.userAgent
  {
    match LabelRule(LabelText(f)) {
      case NameRule =>
      case PhoneRule =>
      case GenderRule =>
      case AreaRule =>
      case AgeRule =>
      case PrivacyRule =>
      case WomenRule =>
      case NoRule =>
    }
  }

  /** One whole field's effect on an attribute the checkbox scan never touches. */
  lemma FieldEffect(r: Record, f: Field, a: Attr)
    requires !IsConsent(a)
    ensures Get(MapField(r, f), a) == if Written(f, a).Some? then Written(f, a).value else Get(r, a)
  {
    LabelChainEffect(ApplyEmail(r, f), f, a);
  }

  /** An attribute no field writes keeps its value through the pass. */
  lemma Untouched(r: Record, fs: seq<Field>, a: Attr)
    requires !IsConsent(a)
    requires forall j :: 0 <= j < |fs| ==> Written(fs[j], a).None?
    ensures Get(MapAll(r, fs), a) == Get(r, a)
  {
    forall x, f ensures Get(MapField(x, f), a) == if Written(f, a).Some? then Written(f, a).value else Get(x, a) {
      FieldEffect(x, f, a);
    }
    MapAllIsFold(r, fs);
    FoldUntouched(MapField, x => Get(x, a), f => Written(f, a), r, fs);
  }

  /** Last write wins: the attribute holds what the last field writing it wrote. */
  lemma LastWriteWins(r: Record, fs: seq<Field>, k: nat, a: Attr)
    requires !IsConsent(a)
    requires k < |fs| && Written(fs[k], a).Some?
    requires forall j :: k < j < |fs| ==> Written(fs[j], a).None?
    ensures Get(MapAll(r, fs), a) == Written(fs[k], a).value
  {
    forall x, f ensures Get(MapField(x, f), a) == if Written(f, a).Some? then Written(f, a).value else Get(x, a) {
      FieldEffect(x, f, a);
    }
    MapAllIsFold(r, fs);
    FoldLastWrite(MapField, x => Get(x, a), f => Written(f, a), r, fs, k);
  }

  // ---------------------------------------------------------------- choices and consent

  /** The attribute each choice branch of the label chain sets. */
  function ChoiceAttr(rule: Rule): Attr {
    match rule
    case GenderRule => Gender
    case AreaRule => Area
    case _ => AgeRange
  }

  /**
   * A gender, area or age field resolves its first selection through its own
   * options: to the text of the first option with that id, to null when no
   * option has it, and not at all without options or without a selection.
   */
  lemma ChoiceResolution(r: Record, f: Field)
    requires LabelRule(LabelText(f)) == GenderRule || LabelRule(LabelText(f)) == AreaRule
             || LabelRule(LabelText(f)) == AgeRule
    ensures var a := ChoiceAttr(LabelRule(LabelText(f)));
      f.options.None? || FirstSelected(f.value).None? ==> Get(MapField(r, f), a) == Get(r, a)
    ensures var a := ChoiceAttr(LabelRule(LabelText(f)));
      f.options.Some? && FirstSelected(f.value).Some? ==>
        var opts := f.options.value;
        var id := FirstSelected(f.value).value;
        ((forall k :: 0 <= k < |opts| ==> opts[k].id != id) ==> Get(MapField(r, f), a) == AsProp(Null))
        && (forall k :: 0 <= k < |opts| && opts[k].id == id && (forall j :: 0 <= j < k ==> opts[j].id != id)
              ==> Get(MapField(r, f), a) == AsProp(Text(opts[k].text)))
  {
    var a := ChoiceAttr(LabelRule(LabelText(f)));
    FieldEffect(r, f, a);
  }

  /**
   * A consent label sets its flag to exactly `value === true`: the string "Yes"
   * gives false.
   */
  lemma LabelConsentIsStrict(r: Record, f: Field)
    requires f.fieldType != "CHECKBOXES"
    ensures LabelRule(LabelText(f)) == PrivacyRule ==>
      MapField(r, f).dataProcessingConsent == Some(f.value == Bool(true))
    ensures LabelRule(LabelText(f)) == WomenRule ==>
      MapField(r, f).womenOnlyFeaturesConsent == Some(f.value == Bool(true))
    ensures LabelRule(LabelText(f)) == PrivacyRule && f.value == Str("Yes") ==>
      MapField(r, f).dataProcessingConsent == Some(false)
  {
  }

  /**
   * The age test runs before the women/marketing test and matches any label
   * containing "age", as "marketing messages" does: such a label never takes
   * the women/marketing branch.
   */
  lemma MessagesLabelSkipsWomenBranch(t: string)
    requires t == "marketing messages"
    ensures Matches(AgeRule, t) && IsWomenText(t)
    ensures LabelRule(t) != WomenRule
  {
    assert OccursAt(t, "age", 14);
    assert OccursAt(t, "marketing", 0);
  }

  /**
   * The checkbox scan runs after the label chain of the same field, so a
   * selected privacy option makes the flag true even where the label chain
   * has just set it to false.
   */
  lemma CheckboxOverridesLabel(r: Record, f: Field, id: string)
    requires f.fieldType == "CHECKBOXES" && f.value.List?
    requires id in f.value.items && SelectsPrivacy(f.options, id)
    ensures MapField(r, f).dataProcessingConsent == Some(true)
  {
  }

  /**
   * A field's checkbox scan only raises consent flags to true: every other
   * attribute is as the email rule and the label chain left it.
   */
  lemma CheckboxesOnlyRaise(r: Record, f: Field)
    ensures var before := ApplyLabel(ApplyEmail(r, f), f);
      var after := MapField(r, f);
      after == before.(dataProcessingConsent := after.dataProcessingConsent,
                       womenOnlyFeaturesConsent := after.womenOnlyFeaturesConsent)
      && (after.dataProcessingConsent == before.dataProcessingConsent || after.dataProcessingConsent == Some(true))
      && (after.womenOnlyFeaturesConsent == before.womenOnlyFeaturesConsent || after.womenOnlyFeaturesConsent == Some(true))
  {
  }
}
