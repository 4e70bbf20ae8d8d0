/** A document field definition as the object-document mapper declares it:
    its kind and the attributes the kwargs builder reads. */
module Fields {
  import opened Wrappers

  /** The field classes the builder and the tests distinguish. `OtherKind`
      stands for any other field class, such as a custom field. */
  datatype FieldKind =
    | StringKind | UrlKind | EmailKind | ComplexDateTimeKind
    | IntKind | LongKind | FloatKind | DecimalKind
    | BooleanKind | DateTimeKind | UuidKind | ObjectIdKind
    | SequenceKind
    | ListKind | DictKind | MapKind
    | OtherKind

  /** `StringField` and its subclasses: URL and e-mail fields, and the
      complex date-time field, which is stored as a string. */
  const StringFieldTypes: set<FieldKind> := {StringKind, UrlKind, EmailKind, ComplexDateTimeKind}

  /** `NUMERIC_FIELD_TYPES`: integer, long, float and decimal fields. */
  const NumericFieldTypes: set<FieldKind> := {IntKind, LongKind, FloatKind, DecimalKind}

  /** `ComplexBaseField` and its subclasses: the container fields. */
  const ContainerFieldTypes: set<FieldKind> := {ListKind, DictKind, MapKind}

  /** `isinstance(f, StringField)`. A complex date-time field passes it. */
  predicate IsString(k: FieldKind): (r: bool)
    ensures k.ComplexDateTimeKind? ==> r
    ensures k.DateTimeKind? ==> !r
  {
    k in StringFieldTypes
  }

  /** `isinstance(f, NUMERIC_FIELD_TYPES)`. No string field passes it, so
      no field is given both length and value bounds. */
  predicate IsNumeric(k: FieldKind): (r: bool)
    ensures r ==> !IsString(k)
  {
    k in NumericFieldTypes
  }

  /** `isinstance(f, ComplexBaseField)`. No string or numeric field is a
      container, so their truthy defaults are always passed on. */
  predicate IsComplex(k: FieldKind): (r: bool)
    ensures r ==> !IsString(k) && !IsNumeric(k)
  {
    k in ContainerFieldTypes
  }

  /** A Python value as stored in a field's `default` or `choices`. Tuples
      and lists are both `SeqValue`; a callable is known by its name. */
  datatype Value =
    | NoneValue
    | BoolValue(b: bool)
    | IntValue(i: int)
    | StrValue(s: string)
    | SeqValue(items: seq<Value>)
    | CallableValue(fn: string)

  /** Python truthiness: `None`, `False`, `0`, `''` and empty sequences are
      false; everything else, callables included, is true. */
  predicate Truthy(v: Value): (r: bool)
    ensures !r <==> v in {NoneValue, BoolValue(false), IntValue(0), StrValue(""), SeqValue([])}
  {
    match v
    case NoneValue => false
    case BoolValue(b) => b
    case IntValue(i) => i != 0
    case StrValue(s) => s != ""
    case SeqValue(items) => items != []
    case CallableValue(_) => true
  }

  /** Truthiness of an optional string attribute (`verbose_name`, `help_text`). */
  predicate HasText(o: Option<string>) {
    o.Some? && o.value != ""
  }

  /** A field definition. `owner` names the document class the field
      belongs to (`model_field.model`); `validation` names the field's own
      validation callable, if any. The four bounds are `None` when the
      attribute is absent or unset. */
  datatype Field = Field(
    name: string,
    kind: FieldKind,
    owner: string,
    dbField: string,
    required: bool,
    default: Value,
    nullable: bool,
    choices: Value,
    unique: bool,
    primaryKey: bool,
    verboseName: Option<string>,
    helpText: Option<string>,
    validation: Option<string>,
    maxLength: Option<int>,
    minLength: Option<int>,
    maxValue: Option<int>,
    minValue: Option<int>,
    precision: int)

  /** A field declared with no options: stored under its own name, not
      required, no default, decimal precision 2. */
  function Declared(name: string, kind: FieldKind, owner: string): Field {
    Field(name, kind, owner, name, false, NoneValue, false, NoneValue, false, false,
          None, None, None, None, None, None, None, 2)
  }
}
