/** `get_field_kwargs`: the keyword arguments for the serializer field that
    stands for one document field. The rules apply in a fixed order with
    two early exits: read-only fields stop before any constraint is
    copied, and choice fields stop before bounds and validators. */
module FieldKwargs {
  import opened Wrappers
  import opened Fields
  import PyInt

  /** `max_digits` of a decimal field that declares no maximum value. */
  const UnboundedDigits: int := 65536

  /** A validator passed to the serializer field: the field's own
      validation callable, or a uniqueness check against the documents of
      the field's owner. */
  datatype Validator = FieldValidation(fn: string) | UniqueValidator(document: string)

  /** The keyword-argument dictionary, one slot per key the builder can
      write; `None` means the key is absent. */
  datatype Kwargs = Kwargs(
    modelField: Field,
    caption: Option<string>,
    helpText: Option<string>,
    decimalPlaces: Option<int>,
    maxDigits: Option<int>,
    readOnly: Option<bool>,
    required: Option<bool>,
    default: Option<Value>,
    allowNull: Option<bool>,
    choices: Option<Value>,
    maxLength: Option<int>,
    minLength: Option<int>,
    maxValue: Option<int>,
    minValue: Option<int>,
    validators: Option<seq<Validator>>)

  /** The names of the keys present, as the serializer field sees them. */
  function KeySet(k: Kwargs): set<string> {
    {"model_field"}
    + (if k.caption.Some? then {"label"} else {})
    + (if k.helpText.Some? then {"help_text"} else {})
    + (if k.decimalPlaces.Some? then {"decimal_places"} else {})
    + (if k.maxDigits.Some? then {"max_digits"} else {})
    + (if k.readOnly.Some? then {"read_only"} else {})
    + (if k.required.Some? then {"required"} else {})
    + (if k.default.Some? then {"default"} else {})
    + (if k.allowNull.Some? then {"allow_null"} else {})
    + (if k.choices.Some? then {"choices"} else {})
    + (if k.maxLength.Some? then {"max_length"} else {})
    + (if k.minLength.Some? then {"min_length"} else {})
    + (if k.maxValue.Some? then {"max_value"} else {})
    + (if k.minValue.Some? then {"min_value"} else {})
    + (if k.validators.Some? then {"validators"} else {})
  }

  /** Sequence fields, primary keys and fields stored as `_id` are read-only. */
  predicate IsReadOnly(f: Field) {
    f.kind.SequenceKind? || f.primaryKey || f.dbField == "_id"
  }

  /** The field reaches the length, value and validator rules: it is
      neither read-only nor choice-constrained. */
  predicate ReachesBounds(f: Field) {
    !IsReadOnly(f) && !Truthy(f.choices)
  }

  /** `max_digits` of a decimal field: the printed width of its maximum
      value plus its precision, or the fallback when it has no maximum. */
  function MaxDigits(f: Field): (r: int)
    ensures f.maxValue.None? ==> r == UnboundedDigits
    ensures f.maxValue.Some? ==> r > f.precision
  {
    if f.maxValue.Some? then |PyInt.Str(f.maxValue.value)| + f.precision else UnboundedDigits
  }

  /** With a maximum of `k` decimal places, `max_digits` is the precision
      plus `k`, plus one more for a negative maximum's sign. */
  lemma MaxDigitsWidth(f: Field, k: nat)
    requires f.maxValue.Some? && k >= 1
    requires var m := f.maxValue.value; (if m < 0 then -m else m) < PyInt.Pow10(k)
    requires var m := f.maxValue.value; k > 1 ==> PyInt.Pow10(k - 1) <= (if m < 0 then -m else m)
    ensures MaxDigits(f) == f.precision + k + (if f.maxValue.value < 0 then 1 else 0)
  {
    PyInt.StrLength(f.maxValue.value, k);
  }

  /** The validator list collected before the rules run: the field's own
      validation callable, when it has one. */
  function OwnValidators(f: Field): (vs: seq<Validator>)
    ensures |vs| <= 1
    ensures f.validation.Some? <==> |vs| == 1
    ensures f.validation.Some? ==> vs[0] == FieldValidation(f.validation.value)
  {
    if f.validation.Some? then [FieldValidation(f.validation.value)] else []
  }

  /** The validator list as it stands once the uniqueness rule has run:
      the field's own validation first, then the uniqueness check. */
  function PendingValidators(f: Field): (vs: seq<Validator>)
    ensures |vs| <= 2
    ensures vs != [] <==> f.validation.Some? || f.unique
    ensures f.validation.Some? ==> vs[0] == FieldValidation(f.validation.value)
    ensures f.unique <==> vs != [] && vs[|vs| - 1] == UniqueValidator(f.owner)
    ensures |vs| == 2 <==> f.validation.Some? && f.unique
  {
    OwnValidators(f) + if f.unique then [UniqueValidator(f.owner)] else []
  }

  /** The keys written before the read-only exit: the field itself, its
      label and help text, and the digits of a decimal field. */
  function Describe(fieldName: string, f: Field,
                    needsLabel: (string, string) -> bool,
                    capFirst: string -> string): (r: Kwargs)
    ensures r.modelField == f
    ensures r.caption == if HasText(f.verboseName) && needsLabel(f.verboseName.value, fieldName)
                         then Some(capFirst(f.verboseName.value)) else None
    ensures r.helpText == if HasText(f.helpText) then f.helpText else None
    ensures r.decimalPlaces == if f.kind.DecimalKind? then Some(f.precision) else None
    ensures r.maxDigits == if !f.kind.DecimalKind? then None
                           else if f.maxValue.Some? then Some(|PyInt.Str(f.maxValue.value)| + f.precision)
                           else Some(UnboundedDigits)
    ensures && r.readOnly.None? && r.required.None? && r.default.None?
            && r.allowNull.None? && r.choices.None?
            && r.maxLength.None? && r.minLength.None?
            && r.maxValue.None? && r.minValue.None? && r.validators.None?
  {
    var k := Kwargs(f, None, None, None, None, None, None, None, None, None, None, None, None, None, None);
    var k := if HasText(f.verboseName) && needsLabel(f.verboseName.value, fieldName)
             then k.(caption := Some(capFirst(f.verboseName.value))) else k;
    var k := if HasText(f.helpText) then k.(helpText := f.helpText) else k;
    if f.kind.DecimalKind?
    then k.(decimalPlaces := Some(f.precision), maxDigits := Some(MaxDigits(f)))
    else k
  }

  /** Past the read-only exit: `required`, `default` and `allow_null`. A
      truthy default makes the field optional and, unless the field is a
      container, is passed on; a falsy default is ignored. */
  function Presence(f: Field, k: Kwargs): (r: Kwargs)
    requires k.default.None? && k.allowNull.None?
    ensures r.required.Some? && r.required.value == (f.required && !Truthy(f.default))
    ensures r.default.Some? <==> Truthy(f.default) && !IsComplex(f.kind)
    ensures r.default.Some? ==> r.default.value == f.default
    ensures r.allowNull.Some? <==> f.nullable
    ensures r.allowNull != Some(false)
    ensures r == k.(required := r.required, default := r.default, allowNull := r.allowNull)
  {
    var k := k.(required := Some(f.required));
    var k := if Truthy(f.default) then k.(required := Some(false)) else k;
    var k := if Truthy(f.default) && !IsComplex(f.kind) then k.(default := Some(f.default)) else k;
    if f.nullable then k.(allowNull := Some(true)) else k
  }

  /** Past both exits: length bounds for string fields, value bounds for
      numeric fields, then the validators. */
  function Bounds(f: Field, k: Kwargs): (r: Kwargs)
    requires k.maxLength.None? && k.minLength.None? && k.maxValue.None? && k.minValue.None?
    requires k.validators.None?
    ensures r.maxLength.Some? <==> IsString(f.kind) && f.maxLength.Some?
    ensures r.minLength.Some? <==> IsString(f.kind) && f.minLength.Some?
    ensures r.maxValue.Some? <==> IsNumeric(f.kind) && f.maxValue.Some?
    ensures r.minValue.Some? <==> IsNumeric(f.kind) && f.minValue.Some?
    ensures r.maxLength.Some? ==> r.maxLength == f.maxLength
    ensures r.minLength.Some? ==> r.minLength == f.minLength
    ensures r.maxValue.Some? ==> r.maxValue == f.maxValue
    ensures r.minValue.Some? ==> r.minValue == f.minValue
    ensures r.validators.Some? <==> f.validation.Some? || f.unique
    ensures r.validators.Some? ==> r.validators.value == PendingValidators(f)
    ensures r == k.(maxLength := r.maxLength, minLength := r.minLength, maxValue := r.maxValue,
                    minValue := r.minValue, validators := r.validators)
  {
    var k := if f.maxLength.Some? && IsString(f.kind) then k.(maxLength := f.maxLength) else k;
    var k := if f.minLength.Some? && IsString(f.kind) then k.(minLength := f.minLength) else k;
    var k := if f.maxValue.Some? && IsNumeric(f.kind) then k.(maxValue := f.maxValue) else k;
    var k := if f.minValue.Some? && IsNumeric(f.kind) then k.(minValue := f.minValue) else k;
    var pending := PendingValidators(f);
    if |pending| > 0 then k.(validators := Some(pending)) else k
  }

  /** Past the read-only exit: presence, then either the choices exit or
      the bounds and validators. The keys written before the exit are
      left as they were. */
  function PastReadOnly(f: Field, k: Kwargs): (r: Kwargs)
    requires && k.readOnly.None? && k.required.None? && k.default.None?
             && k.allowNull.None? && k.choices.None?
             && k.maxLength.None? && k.minLength.None?
             && k.maxValue.None? && k.minValue.None? && k.validators.None?
    ensures && r.modelField == k.modelField && r.caption == k.caption && r.helpText == k.helpText
            && r.decimalPlaces == k.decimalPlaces && r.maxDigits == k.maxDigits && r.readOnly.None?
    ensures r.required == Some(f.required && !Truthy(f.default))
    ensures r.default == if Truthy(f.default) && !IsComplex(f.kind) then Some(f.default) else None
    ensures r.allowNull == if f.nullable then Some(true) else None
    ensures r.choices == if Truthy(f.choices) then Some(f.choices) else None
    ensures r.maxLength == if !Truthy(f.choices) && IsString(f.kind) then f.maxLength else None
    ensures r.minLength == if !Truthy(f.choices) && IsString(f.kind) then f.minLength else None
    ensures r.maxValue == if !Truthy(f.choices) && IsNumeric(f.kind) then f.maxValue else None
    ensures r.minValue == if !Truthy(f.choices) && IsNumeric(f.kind) then f.minValue else None
    ensures r.validators == if !Truthy(f.choices) && (f.validation.Some? || f.unique)
                            then Some(PendingValidators(f)) else None
  {
    var k := Presence(f, k);
    if Truthy(f.choices) then
      k.(choices := Some(f.choices))
    else
      Bounds(f, k)
  }

  /** `get_field_kwargs(fieldName, f)`. `needsLabel` and `capFirst` stand for
      the serializer framework's `needs_label` and `capfirst`. Each key is
      stated by when it is present and what it then holds. */
  function GetFieldKwargs(fieldName: string, f: Field,
                          needsLabel: (string, string) -> bool,
                          capFirst: string -> string): (r: Kwargs)
    // always present, and the optional label and help text
    ensures r.modelField == f
    ensures r.caption == if HasText(f.verboseName) && needsLabel(f.verboseName.value, fieldName)
                         then Some(capFirst(f.verboseName.value)) else None
    ensures r.helpText == if HasText(f.helpText) then f.helpText else None
    // decimal digits are computed before the read-only exit and survive it
    ensures r.decimalPlaces == if f.kind.DecimalKind? then Some(f.precision) else None
    ensures r.maxDigits == if !f.kind.DecimalKind? then None
                           else if f.maxValue.Some? then Some(|PyInt.Str(f.maxValue.value)| + f.precision)
                           else Some(UnboundedDigits)
    // read-only exit
    ensures r.readOnly == if IsReadOnly(f) then Some(true) else None
    // required, default and null
    ensures r.required == if IsReadOnly(f) then None else Some(f.required && !Truthy(f.default))
    ensures r.default == if !IsReadOnly(f) && Truthy(f.default) && !IsComplex(f.kind)
                         then Some(f.default) else None
    ensures r.allowNull == if !IsReadOnly(f) && f.nullable then Some(true) else None
    // choices exit
    ensures r.choices == if !IsReadOnly(f) && Truthy(f.choices) then Some(f.choices) else None
    // type-gated bounds, only past both exits
    ensures r.maxLength == if ReachesBounds(f) && IsString(f.kind) then f.maxLength else None
    ensures r.minLength == if ReachesBounds(f) && IsString(f.kind) then f.minLength else None
    ensures r.maxValue == if ReachesBounds(f) && IsNumeric(f.kind) then f.maxValue else None
    ensures r.minValue == if ReachesBounds(f) && IsNumeric(f.kind) then f.minValue else None
    // validators: own validation first, then the uniqueness check
    ensures r.validators == if ReachesBounds(f) && (f.validation.Some? || f.unique)
                            then Some(PendingValidators(f)) else None
  {
    var k := Describe(fieldName, f, needsLabel, capFirst);
    if IsReadOnly(f) then k.(readOnly := Some(true)) else PastReadOnly(f, k)
  }

  /** A read-only field's keywords are exactly `model_field` and
      `read_only`, plus whichever of label, help text and decimal digits
      were written before the exit. */
  lemma ReadOnlyKeys(fieldName: string, f: Field,
                     needsLabel: (string, string) -> bool, capFirst: string -> string)
    requires IsReadOnly(f)
    ensures var keys := KeySet(GetFieldKwargs(fieldName, f, needsLabel, capFirst));
            && {"model_field", "read_only"} <= keys
            && keys <= {"model_field", "read_only", "label", "help_text", "decimal_places", "max_digits"}
  {
  }

  /** Past the read-only exit, nothing a read-only field declares about
      presence, choices, bounds, uniqueness or validation matters. */
  lemma ReadOnlyIgnoresConstraints(fieldName: string, f: Field, g: Field,
                                   needsLabel: (string, string) -> bool, capFirst: string -> string)
    requires IsReadOnly(f)
    requires g == f.(required := g.required, default := g.default, nullable := g.nullable,
                     choices := g.choices, unique := g.unique, validation := g.validation,
                     maxLength := g.maxLength, minLength := g.minLength, minValue := g.minValue)
    ensures GetFieldKwargs(fieldName, g, needsLabel, capFirst)
         == GetFieldKwargs(fieldName, f, needsLabel, capFirst).(modelField := g)
  {
  }

  /** A choice field's bounds, uniqueness and own validation are never
      consulted. */
  lemma ChoicesIgnoreBounds(fieldName: string, f: Field, g: Field,
                            needsLabel: (string, string) -> bool, capFirst: string -> string)
    requires !IsReadOnly(f) && Truthy(f.choices)
    requires g == f.(unique := g.unique, validation := g.validation,
                     maxLength := g.maxLength, minLength := g.minLength,
                     maxValue := g.maxValue, minValue := g.minValue)
    requires g.kind.DecimalKind? ==> g.maxValue == f.maxValue
    ensures GetFieldKwargs(fieldName, g, needsLabel, capFirst).(modelField := f)
         == GetFieldKwargs(fieldName, f, needsLabel, capFirst)
  {
  }

  /** A falsy default (`0`, `''`, `False`, an empty list) behaves exactly
      like no default at all. */
  lemma FalsyDefaultIgnored(fieldName: string, f: Field,
                            needsLabel: (string, string) -> bool, capFirst: string -> string)
    requires !Truthy(f.default)
    ensures GetFieldKwargs(fieldName, f.(default := NoneValue), needsLabel, capFirst).(modelField := f)
         == GetFieldKwargs(fieldName, f, needsLabel, capFirst)
  {
    var g := f.(default := NoneValue);
    if IsReadOnly(f) {
      ReadOnlyIgnoresConstraints(fieldName, f, g, needsLabel, capFirst);
    } else {
      var d := Describe(fieldName, f, needsLabel, capFirst);
      DescribeReadsNoDefault(fieldName, f, g, needsLabel, capFirst);
      PresenceFalsyDefault(f, g, d);
      if !Truthy(f.choices) {
        var p := Presence(f, d);
        BoundsReadsNoDefault(f, g, p);
      }
    }
  }

  lemma DescribeReadsNoDefault(fieldName: string, f: Field, g: Field,
                               needsLabel: (string, string) -> bool, capFirst: string -> string)
    requires g == f.(default := g.default)
    ensures Describe(fieldName, g, needsLabel, capFirst)
         == Describe(fieldName, f, needsLabel, capFirst).(modelField := g)
  {
  }

  lemma PresenceFalsyDefault(f: Field, g: Field, d: Kwargs)
    requires g == f.(default := NoneValue) && !Truthy(f.default)
    requires d.default.None? && d.allowNull.None?
    ensures Presence(g, d.(modelField := g)) == Presence(f, d).(modelField := g)
  {
  }

  lemma BoundsReadsNoDefault(f: Field, g: Field, p: Kwargs)
    requires g == f.(default := g.default)
    requires p.maxLength.None? && p.minLength.None? && p.maxValue.None? && p.minValue.None?
    requires p.validators.None?
    ensures Bounds(g, p.(modelField := g)) == Bounds(f, p).(modelField := g)
  {
  }

  /** A read-only decimal field keeps its digits: they are written
      before the exit. */
  lemma ReadOnlyDecimalKeepsDigits(fieldName: string, f: Field,
                                   needsLabel: (string, string) -> bool, capFirst: string -> string)
    requires IsReadOnly(f) && f.kind.DecimalKind?
    ensures {"decimal_places", "max_digits", "read_only"} <= KeySet(GetFieldKwargs(fieldName, f, needsLabel, capFirst))
  {
  }

  /** The read-only exit comes before the choices exit: a read-only field
      gets no `choices` key, whatever choices it declares. */
  lemma ReadOnlyBeforeChoices(fieldName: string, f: Field,
                              needsLabel: (string, string) -> bool, capFirst: string -> string)
    requires IsReadOnly(f)
    ensures "choices" !in KeySet(GetFieldKwargs(fieldName, f, needsLabel, capFirst))
    ensures "read_only" in KeySet(GetFieldKwargs(fieldName, f, needsLabel, capFirst))
  {
  }
}
