/** Concrete fields run through the model. Eight lemmas restate what the
    repository's test suite expects for its sample documents:
    `AutoIdIsReadOnly`, `UnboundedDecimal`, `RequiredAndNullFields`,
    `ChoiceField`, `LimitFields`, `BoundedDecimal`,
    `SequencePrimaryKeyIsReadOnly` and `AutoFieldModelInfo`. The others are
    worked examples of single rules of the kwargs builder on documents of
    their own. Label decisions are left open (`needsLabel`, `capFirst`
    arbitrary), except in `LabelledDecimalChoices`, which assumes the label
    is needed. */
module Oracles {
  import opened Wrappers
  import opened Fields
  import opened FieldKwargs
  import opened OrderedDicts
  import opened FieldInfos
  import PyInt

  /** The implicit identity field every top-level document gets. */
  function AutoId(owner: string): Field {
    Declared("id", ObjectIdKind, owner).(dbField := "_id")
  }

  /** `id = ObjectIdField(read_only=True)`. */
  lemma AutoIdIsReadOnly(owner: string, needsLabel: (string, string) -> bool, capFirst: string -> string)
    ensures KeySet(GetFieldKwargs("id", AutoId(owner), needsLabel, capFirst)) == {"model_field", "read_only"}
    ensures GetFieldKwargs("id", AutoId(owner), needsLabel, capFirst).readOnly == Some(true)
  {
  }

  /** `auto_field = IntegerField(read_only=True)` for a sequence field that
      is the primary key. */
  lemma SequencePrimaryKeyIsReadOnly(needsLabel: (string, string) -> bool, capFirst: string -> string)
    ensures var f := Declared("auto_field", SequenceKind, "AutoFieldModel").(primaryKey := true);
            var k := GetFieldKwargs("auto_field", f, needsLabel, capFirst);
            KeySet(k) == {"model_field", "read_only"} && k.readOnly == Some(true)
  {
  }

  /** `decimal_field = DecimalField(decimal_places=2, max_digits=65536, required=False)`. */
  lemma UnboundedDecimal(needsLabel: (string, string) -> bool, capFirst: string -> string)
    ensures var k := GetFieldKwargs("decimal_field", Declared("decimal_field", DecimalKind, "RegularModel"),
                                    needsLabel, capFirst);
            && KeySet(k) == {"model_field", "decimal_places", "max_digits", "required"}
            && k.decimalPlaces == Some(2) && k.maxDigits == Some(65536) && k.required == Some(false)
  {
  }

  /** `decimal_field = DecimalField(decimal_places=4, max_digits=8, max_value=9999, required=False)`:
      four digits of 9999 plus a precision of 4. */
  lemma BoundedDecimal(needsLabel: (string, string) -> bool, capFirst: string -> string)
    ensures var f := Declared("decimal_field", DecimalKind, "FieldOptionsModel").(precision := 4, maxValue := Some(9999));
            var k := GetFieldKwargs("decimal_field", f, needsLabel, capFirst);
            && KeySet(k) == {"model_field", "decimal_places", "max_digits", "max_value", "required"}
            && k.decimalPlaces == Some(4) && k.maxDigits == Some(8) && k.maxValue == Some(9999)
            && k.required == Some(false)
  {
    PyInt.StrLength(9999, 4);
  }

  /** A decimal field with precision 2 and maximum 999 allows 5 digits. */
  lemma ThreeDigitDecimal(needsLabel: (string, string) -> bool, capFirst: string -> string)
    ensures var f := Declared("price", DecimalKind, "Item").(maxValue := Some(999));
            GetFieldKwargs("price", f, needsLabel, capFirst).maxDigits == Some(5)
  {
    PyInt.StrLength(999, 3);
  }

  /** A negative maximum counts its sign: -50 with precision 2 allows 5. */
  lemma NegativeMaximumCountsSign(needsLabel: (string, string) -> bool, capFirst: string -> string)
    ensures var f := Declared("delta", DecimalKind, "Item").(maxValue := Some(-50));
            GetFieldKwargs("delta", f, needsLabel, capFirst).maxDigits == Some(5)
  {
    PyInt.StrLength(-50, 2);
  }

  /** `required_field = IntegerField(required=True)` and
      `null_field = IntegerField(allow_null=True, required=False)`. */
  lemma RequiredAndNullFields(needsLabel: (string, string) -> bool, capFirst: string -> string)
    ensures var k := GetFieldKwargs("required_field",
                                    Declared("required_field", IntKind, "FieldOptionsModel").(required := true),
                                    needsLabel, capFirst);
            KeySet(k) == {"model_field", "required"} && k.required == Some(true)
    ensures var k := GetFieldKwargs("null_field",
                                    Declared("null_field", IntKind, "FieldOptionsModel").(nullable := true),
                                    needsLabel, capFirst);
            KeySet(k) == {"model_field", "allow_null", "required"}
            && k.allowNull == Some(true) && k.required == Some(false)
  {
  }

  function ColorChoices(): Value {
    SeqValue([SeqValue([StrValue("red"), StrValue("Red")]),
              SeqValue([StrValue("blue"), StrValue("Blue")]),
              SeqValue([StrValue("green"), StrValue("Green")])])
  }

  /** `choices_field = ChoiceField(choices=..., required=False)`: no length
      bound or validator, even for a unique, length-bounded string field. */
  lemma ChoiceField(needsLabel: (string, string) -> bool, capFirst: string -> string)
    ensures var f := Declared("choices_field", StringKind, "FieldOptionsModel").(choices := ColorChoices());
            var k := GetFieldKwargs("choices_field", f, needsLabel, capFirst);
            && KeySet(k) == {"model_field", "choices", "required"} && k.choices == Some(ColorChoices())
            && k.required == Some(false)
    ensures var f := Declared("choices_field", StringKind, "FieldOptionsModel")
                       .(choices := ColorChoices(), unique := true, maxLength := Some(12));
            KeySet(GetFieldKwargs("choices_field", f, needsLabel, capFirst)) == {"model_field", "choices", "required"}
  {
  }

  /** `length_limit_field = CharField(max_length=12, min_length=3, required=False)` and
      `value_limit_field = IntegerField(max_value=12, min_value=3, required=False)`. */
  lemma LimitFields(needsLabel: (string, string) -> bool, capFirst: string -> string)
    ensures var f := Declared("length_limit_field", StringKind, "FieldOptionsModel")
                       .(minLength := Some(3), maxLength := Some(12));
            var k := GetFieldKwargs("length_limit_field", f, needsLabel, capFirst);
            KeySet(k) == {"model_field", "max_length", "min_length", "required"}
            && k.maxLength == Some(12) && k.minLength == Some(3) && k.required == Some(false)
    ensures var f := Declared("value_limit_field", IntKind, "FieldOptionsModel")
                       .(minValue := Some(3), maxValue := Some(12));
            var k := GetFieldKwargs("value_limit_field", f, needsLabel, capFirst);
            KeySet(k) == {"model_field", "max_value", "min_value", "required"}
            && k.maxValue == Some(12) && k.minValue == Some(3) && k.required == Some(false)
  {
  }

  /** Bounds are type-gated: a length bound on an integer field and a value
      bound on a string field are dropped. */
  lemma MisplacedBoundsDropped(needsLabel: (string, string) -> bool, capFirst: string -> string)
    ensures var f := Declared("n", IntKind, "Doc").(maxLength := Some(5));
            KeySet(GetFieldKwargs("n", f, needsLabel, capFirst)) == {"model_field", "required"}
    ensures var f := Declared("s", StringKind, "Doc").(maxValue := Some(5));
            KeySet(GetFieldKwargs("s", f, needsLabel, capFirst)) == {"model_field", "required"}
  {
  }

  /** A default of 0 is falsy: it neither clears `required` nor is passed
      on; a default of 7 does both. */
  lemma ZeroDefaultIgnored(needsLabel: (string, string) -> bool, capFirst: string -> string)
    ensures var f := Declared("count", IntKind, "Doc").(required := true, default := IntValue(0));
            var k := GetFieldKwargs("count", f, needsLabel, capFirst);
            k.required == Some(true) && k.default.None?
    ensures var f := Declared("count", IntKind, "Doc").(required := true, default := IntValue(7));
            var k := GetFieldKwargs("count", f, needsLabel, capFirst);
            k.required == Some(false) && k.default == Some(IntValue(7))
  {
  }

  /** A container field's default clears `required` but is not passed on. */
  lemma ContainerDefaultNotPassed(needsLabel: (string, string) -> bool, capFirst: string -> string)
    ensures var f := Declared("tags", ListKind, "Doc").(default := CallableValue("list"));
            var k := GetFieldKwargs("tags", f, needsLabel, capFirst);
            k.required == Some(false) && k.default.None?
  {
  }

  /** A unique string field gets one validator, the uniqueness check
      against its own document class; with its own validation as well it
      gets two, the field's own first. */
  lemma UniqueStringField(needsLabel: (string, string) -> bool, capFirst: string -> string)
    ensures var f := Declared("email", StringKind, "User").(unique := true);
            GetFieldKwargs("email", f, needsLabel, capFirst).validators == Some([UniqueValidator("User")])
    ensures var f := Declared("email", StringKind, "User").(unique := true, validation := Some("check_email"));
            GetFieldKwargs("email", f, needsLabel, capFirst).validators
              == Some([FieldValidation("check_email"), UniqueValidator("User")])
  {
    var f := Declared("email", StringKind, "User").(unique := true);
    assert OwnValidators(f) == [];
    assert PendingValidators(f) == [UniqueValidator("User")];
    var g := f.(validation := Some("check_email"));
    assert OwnValidators(g) == [FieldValidation("check_email")];
    assert PendingValidators(g) == [FieldValidation("check_email"), UniqueValidator("User")];
  }

  /** `DECIMAL_CHOICES`, with each `Decimal` written as its string. */
  function DecimalChoices(): Value {
    SeqValue([SeqValue([StrValue("low"), StrValue("0.1")]),
              SeqValue([StrValue("medium"), StrValue("0.5")]),
              SeqValue([StrValue("high"), StrValue("0.9")])])
  }

  /** `choices_field_with_nonstandard_args`, the field the test suite only
      builds a serializer for: a labelled decimal choice field keeps its
      label and digits and stops at the choices. The label is taken to be
      needed, since the verbose name differs from the field name. */
  lemma LabelledDecimalChoices(needsLabel: (string, string) -> bool, capFirst: string -> string)
    requires needsLabel("A label", "choices_field_with_nonstandard_args")
    ensures var f := Declared("choices_field_with_nonstandard_args", DecimalKind, "ChoicesModel")
                       .(precision := 1, verboseName := Some("A label"),
                         choices := DecimalChoices());
            var k := GetFieldKwargs("choices_field_with_nonstandard_args", f, needsLabel, capFirst);
            && KeySet(k) == {"model_field", "label", "decimal_places", "max_digits", "choices", "required"}
            && k.caption == Some(capFirst("A label"))
            && k.decimalPlaces == Some(1) && k.maxDigits == Some(65536)
            && k.choices == Some(DecimalChoices())
  {
  }

  /** A complex date-time field is a string field: its length bounds are
      passed on, unlike those of a plain date-time field. */
  lemma ComplexDateTimeLengthBound(needsLabel: (string, string) -> bool, capFirst: string -> string)
    ensures var f := Declared("stamp", ComplexDateTimeKind, "Doc").(maxLength := Some(40));
            var k := GetFieldKwargs("stamp", f, needsLabel, capFirst);
            KeySet(k) == {"model_field", "max_length", "required"} && k.maxLength == Some(40)
    ensures var f := Declared("stamp", DateTimeKind, "Doc").(maxLength := Some(40));
            KeySet(GetFieldKwargs("stamp", f, needsLabel, capFirst)) == {"model_field", "required"}
  {
  }

  /** The document of `test_pk_fields`: a single sequence field that is the
      primary key. Both `pk` and `auto_field` name it in `fields_and_pk`. */
  function AutoFieldModel(): Document {
    var auto := Declared("auto_field", SequenceKind, "AutoFieldModel").(primaryKey := true);
    Document(false, ["auto_field"], map["auto_field" := auto], "auto_field")
  }

  lemma AutoFieldModelInfo()
    ensures GetFieldInfo(AutoFieldModel()).Success?
    ensures var info := GetFieldInfo(AutoFieldModel()).value;
            var auto := AutoFieldModel().fieldMap["auto_field"];
            && info.pk == Some(auto)
            && info.fields.keys == ["auto_field"]
            && info.fieldsAndPk.keys == ["pk", "auto_field"]
            && Get(info.fieldsAndPk, "pk") == Some(Some(auto))
            && Get(info.fieldsAndPk, "auto_field") == Some(Some(auto))
  {
    var doc := AutoFieldModel();
    assert forall n :: n in doc.fieldsOrdered ==> n in doc.fieldMap;
    var info := GetFieldInfo(doc).value;
    var auto := doc.fieldMap["auto_field"];
    assert info.pk == Some(auto);
    FieldsFollowDeclarationOrder(doc);
    assert PkKeys(info.pk) == ["pk", "auto_field"];
    FieldsAndPkLayout(doc);
  }
}
