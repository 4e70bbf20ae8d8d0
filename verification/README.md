# Field metadata of django-rest-framework-mongoengine, in Dafny

This project models `rest_framework_mongoengine/utils.py`. That file
translates the field metadata of a MongoEngine document class into what a
Django REST framework serializer needs. It has two parts:

- **`get_field_kwargs(field_name, model_field)`** builds the
  keyword arguments for one serializer field from one document field. It
  applies a fixed chain of rules:
  - it attaches `model_field`, then an optional `label` and `help_text`;
  - a decimal field gets `decimal_places` and `max_digits`;
  - a sequence field, a primary key or a field stored as `_id` gets
    `read_only` and stops;
  - otherwise it writes `required`, `default` and `allow_null`;
  - a field with choices gets `choices` and stops;
  - otherwise it applies length bounds to string fields and value bounds
    to the numeric fields (`NUMERIC_FIELD_TYPES`), then the validators.
- **`get_field_info(model)`** collects a document's primary key and its
  declared fields in declaration order. It also builds the
  `fields_and_pk` view, which is an `OrderedDict` holding `'pk'`, then the
  primary key's name, then every declared field. The relation maps are
  always empty, because MongoDB has no relations.

Modules:

- `Wrappers`: `Option` and `Result`.
- `OrderedDicts`: Python's `OrderedDict` as a key sequence plus a map.
  - `Set` overwrites a key in place or appends a new one.
  - `Update` is `dict.update`.
  - `Fresh` gives the order in which new keys are appended.
- `PyInt`: `str()` of an integer and its length, with the sign included.
- `Fields`: the field definition, the field-class tests
  (`IsString`, `IsNumeric` for `NUMERIC_FIELD_TYPES`, `IsComplex`) and
  Python truthiness of field values.
- `FieldKwargs`: `get_field_kwargs`. The result is a record with one
  `Option` slot per key; `KeySet` lists the keys that are present.
- `FieldInfos`: `get_field_info`. A missing `_fields` entry (the Python
  `KeyError`) is a `Failure`.
- `Oracles`: concrete fields run through the model. Eight lemmas restate
  the serializer fields the repository's tests expect
  (`AutoIdIsReadOnly`, `UnboundedDecimal`, `RequiredAndNullFields`,
  `ChoiceField`, `LimitFields`, `BoundedDecimal`,
  `SequencePrimaryKeyIsReadOnly`, `AutoFieldModelInfo`). The others are
  worked examples of single rules of utils.py:114-178 on documents of their
  own. `LabelledDecimalChoices` uses a field the tests declare but check
  nothing about, and assumes `needs_label` holds for it, since its verbose
  name differs from its field name.

Two consequences of the code's order and tests are worth naming. The test
`if model_field.default:` ignores a falsy default such as `0`, `''` or `[]`
entirely (`FieldKwargs.FalsyDefaultIgnored`, `Oracles.ZeroDefaultIgnored`).
The decimal digits are written before the read-only exit and survive it
(`FieldKwargs.ReadOnlyDecimalKeepsDigits`).

## Model

| member | source | states |
|---|---|---|
| FieldKwargs.GetFieldKwargs | rest_framework_mongoengine/utils.py:103-180 | For every key: when it is present and what it then holds. `model_field` is always present. `label` is present iff the verbose name is non-empty and `needs_label` holds. Decimal digits survive the read-only exit. After that exit only `read_only` is added. `required`, `default` and `allow_null` appear only past it. `choices` stops the bounds and validators. Length bounds only for string fields, value bounds only for numeric fields. |
| FieldKwargs.Describe | rest_framework_mongoengine/utils.py:114-130 | The keys written before the read-only exit: label, help text, `decimal_places` = precision, and `max_digits` = length of `str(max_value)` + precision, or 65536 without a maximum. No other key is present. |
| FieldKwargs.Presence | rest_framework_mongoengine/utils.py:138-147 | `required` is the field's flag unless the default is truthy. `default` is present iff the default is truthy and the field is not a container. `allow_null` is present iff null is allowed, and is then true. Nothing else changes. |
| FieldKwargs.Bounds | rest_framework_mongoengine/utils.py:155-178 | Each bound is present iff the attribute is set and the field has the right kind. Each bound present equals the attribute. `validators` is present iff the pending list is non-empty, and it is that list. Nothing else changes. |
| FieldKwargs.PastReadOnly | rest_framework_mongoengine/utils.py:138-178 | Past the read-only exit, with choices the result stops at `choices`. Without choices it carries the bounds and validators. The keys written earlier are kept. |
| FieldKwargs.OwnValidators | rest_framework_mongoengine/utils.py:107-110 | The list starts with the field's own validation and holds nothing else. It is empty iff the field has no validation. |
| FieldKwargs.PendingValidators | rest_framework_mongoengine/utils.py:171-175 | The field's own validation first, then the uniqueness validator for the owning document, which is last iff the field is unique. At most two entries. The list is empty iff the field has neither validation nor uniqueness. |
| FieldKwargs.ReadOnlyKeys | rest_framework_mongoengine/utils.py:132-136 | A read-only field's keys contain `model_field` and `read_only`. Besides those they contain at most label, help text and the decimal digits. |
| FieldKwargs.ReadOnlyIgnoresConstraints | rest_framework_mongoengine/utils.py:132-136 | A read-only field's required flag, default, null flag, choices, uniqueness, validation, length bounds and minimum have no effect on its keywords. Its maximum is not included: a decimal field's digits read it before the exit. |
| FieldKwargs.ChoicesIgnoreBounds | rest_framework_mongoengine/utils.py:149-153 | A choice field's uniqueness, own validation, length bounds and minimum have no effect on its keywords. Neither does its maximum, unless the field is a decimal field, whose digits read it. |
| FieldKwargs.FalsyDefaultIgnored | rest_framework_mongoengine/utils.py:140-144 | A falsy default gives exactly the same keywords as no default. |
| FieldKwargs.ReadOnlyBeforeChoices | rest_framework_mongoengine/utils.py:132-153 | A read-only field gets `read_only` and never `choices`, whatever choices it declares. |
| FieldKwargs.ReadOnlyDecimalKeepsDigits | rest_framework_mongoengine/utils.py:122-136 | A read-only decimal field gets `decimal_places`, `max_digits` and `read_only`. |
| FieldKwargs.KeySet | rest_framework_mongoengine/utils.py:114-178 | The Python key names of the keywords present: `model_field` always, and each other name exactly when its slot is filled. It has no contract of its own; the examples state key sets through it. |
| FieldKwargs.MaxDigits | rest_framework_mongoengine/utils.py:123-128 | Without a maximum, `max_digits` is 65536. With one, it exceeds the precision, since `str(max_value)` is never empty. |
| FieldKwargs.MaxDigitsWidth | rest_framework_mongoengine/utils.py:123-128 | With a maximum of k decimal places, `max_digits` is precision + k, plus one for the sign of a negative maximum. |
| FieldKwargs.IsReadOnly | rest_framework_mongoengine/utils.py:132 | The read-only test: a sequence field, a primary key, or a field stored as `_id`. It has no contract of its own; `FieldKwargs.GetFieldKwargs` states its effect. |
| Fields.IsString | rest_framework_mongoengine/utils.py:156 | `isinstance(f, StringField)`: a complex date-time field passes it and a plain date-time field does not. |
| Fields.IsNumeric | rest_framework_mongoengine/utils.py:96-101 | `NUMERIC_FIELD_TYPES`. No string field passes it, so no field gets both length and value bounds. |
| Fields.IsComplex | rest_framework_mongoengine/utils.py:143 | `isinstance(f, ComplexBaseField)`. No string or numeric field passes it, so their truthy defaults are passed on. |
| Fields.HasText | rest_framework_mongoengine/utils.py:116-119 | Truthiness of `verbose_name` and `help_text`: set and non-empty. It has no contract of its own; `FieldKwargs.Describe` states its effect. |
| Fields.Truthy | rest_framework_mongoengine/utils.py:140 | Python truthiness: a value is falsy iff it is `None`, `False`, `0`, `''` or an empty sequence. |
| PyInt.Str | rest_framework_mongoengine/utils.py:126 | `str(n)` is non-empty and starts with a minus sign iff `n` is negative. |
| PyInt.StrLength | rest_framework_mongoengine/utils.py:126 | `len(str(n))` is the number of decimal places of \|n\|, plus one for the sign of a negative `n`. |
| PyInt.DigitsLengthBounds | rest_framework_mongoengine/utils.py:126 | The digit string of `n` has exactly as many characters as `n` has decimal places, and no leading zero. |
| PyInt.StrRoundTrip | rest_framework_mongoengine/utils.py:126 | Reading `str(n)` back gives `n`, so the modelled string is the decimal form of `n`. |
| FieldInfos.PrimaryKey | rest_framework_mongoengine/utils.py:56-60 | There is no key for an embedded document. Otherwise the key is the field the identity-field entry names. A missing entry raises `KeyError` on that name. |
| FieldInfos.CollectFields | rest_framework_mongoengine/utils.py:62-66 | The loop succeeds iff every declared name is defined. It then performs exactly the assignments `OrderedDicts.SetAll` describes. |
| FieldInfos.CollectFieldsFailsAtFirstMissing | rest_framework_mongoengine/utils.py:65-66 | The loop raises `KeyError` for the first undefined name and for no other. |
| FieldInfos.PkName | rest_framework_mongoengine/utils.py:80 | `getattr(pk, 'name', 'pk')`: the primary key's name, or `'pk'` without one. It has no contract of its own; `FieldInfos.PkKeys` states its use. |
| FieldInfos.PkKeys | rest_framework_mongoengine/utils.py:79-80 | The keys before the merge are `'pk'` first, then the primary key's name (or `'pk'` without a primary key), each listed once. |
| FieldInfos.FieldsAndPk | rest_framework_mongoengine/utils.py:78-81 | `fields_and_pk` starts with the keys before the merge, then lists the declared names not already present. Every declared name maps to its field. `'pk'` and the key's name map to the primary key unless a declared field of that name overwrote them. There is no other key. |
| FieldInfos.DeclaredFields | rest_framework_mongoengine/utils.py:62-66 | `fields` fails iff some declared name is undefined. Otherwise it holds each declared name once, in order of first declaration, mapped to its definition. |
| FieldInfos.MergedRelations | rest_framework_mongoengine/utils.py:85-88 | Merging the items of two empty relation maps gives an empty map. |
| FieldInfos.GetFieldInfo | rest_framework_mongoengine/utils.py:50-90 | It fails iff the identity field or a declared name is undefined, and the identity field is checked first. It also gives the primary key, the declared fields in order with their definitions, the merged view, and three empty relation maps. |
| FieldInfos.FieldsFollowDeclarationOrder | rest_framework_mongoengine/utils.py:63-66 | With distinct declared names, the keys of `fields` are the declared names in declaration order. |
| FieldInfos.MissingFieldReported | rest_framework_mongoengine/utils.py:60-66 | When the primary key resolves, the first undefined declared name is the `KeyError` reported. |
| FieldInfos.FieldsAndPkLayout | rest_framework_mongoengine/utils.py:78-81 | In terms of the document: `'pk'` is first and the key's name second. Every declared name maps to its field. `'pk'` and the key's name map to the key when no declared field shares their name. The keys are exactly these names. |
| FieldInfos.EmbeddedFieldsAndPk | rest_framework_mongoengine/utils.py:56-58 | An embedded document with distinct names, none of them `'pk'`, has no primary key. Its `fields_and_pk` is `'pk'` mapped to nothing, followed by the declared names. |
| FieldInfos.WithoutPrimaryKey | rest_framework_mongoengine/utils.py:78-81 | Without a primary key and without a declared `'pk'`, the merged keys are `'pk'` followed by the declared keys. |
| FieldInfos.FieldsAndPkSize | rest_framework_mongoengine/utils.py:78-81 | With N distinct declared names, `fields_and_pk` has N entries, plus one for each of `'pk'` and the key's name not among them, and holds exactly one value per listed name. |
| FieldInfos.FieldsAndPkBound | rest_framework_mongoengine/utils.py:78-81 | `fields_and_pk` lists and holds at most N + 2 entries for N declared names, repeated or not. |
| OrderedDicts.Empty | rest_framework_mongoengine/utils.py:63 | `OrderedDict()` has no keys and satisfies the representation invariant. |
| OrderedDicts.Set | rest_framework_mongoengine/utils.py:79 | `d[k] = v` maps `k` to `v` and leaves every other key alone. A present key keeps its place and a new key is appended. The invariant is kept. |
| OrderedDicts.SetAll | rest_framework_mongoengine/utils.py:65-66 | A run of assignments gives the last listed values to the listed keys and leaves the others. It appends the new keys once each, in order of first occurrence. |
| OrderedDicts.Update | rest_framework_mongoengine/utils.py:81 | `d.update(e)`: `e`'s values win and the other keys keep `d`'s values. `d`'s keys stay in place and `e`'s new keys follow in `e`'s order. |
| OrderedDicts.Fresh | rest_framework_mongoengine/utils.py:81 | The appended keys are exactly the listed keys not seen before, each once. |
| OrderedDicts.FreshOfDistinct | rest_framework_mongoengine/utils.py:81 | A list without repeats and without any key seen before is appended unchanged. |
| OrderedDicts.FreshLength | rest_framework_mongoengine/utils.py:81 | A run of assignments appends at most one key per assignment. |
| OrderedDicts.FromItems | rest_framework_mongoengine/utils.py:85-88 | `OrderedDict(items)` is well formed. It lists the keys of the pairs once each, in order of first occurrence, and holds no other key. |
| OrderedDicts.FromItemsLastWins | rest_framework_mongoengine/utils.py:85-88 | In `OrderedDict(items)` a key holds the value of its last pair. |
| OrderedDicts.SetPairs | rest_framework_mongoengine/utils.py:85-88 | Assigning a list of pairs in turn appends the new keys in order of first occurrence and leaves keys outside the list alone. The invariant is kept. |
| OrderedDicts.SetPairsLastWins | rest_framework_mongoengine/utils.py:85-88 | After assigning a list of pairs in turn, a key holds the value of its last pair. |
| OrderedDicts.Items | rest_framework_mongoengine/utils.py:86-87 | `list(d.items())` is the key/value pairs in key order. |
| OrderedDicts.DictSize | rest_framework_mongoengine/utils.py:81 | A well-formed dictionary has one entry per listed key. |
| Oracles.AutoIdIsReadOnly | tests/test_1basic.py:128 | The implicit `id` field gets exactly `model_field` and `read_only=True`. |
| Oracles.UnboundedDecimal | tests/test_1basic.py:141 | A plain decimal field gets `decimal_places=2`, `max_digits=65536` and `required=False`. |
| Oracles.RequiredAndNullFields | tests/test_1basic.py:199-200 | `required_field` gets `required=True`. `null_field` gets `allow_null=True, required=False`. |
| Oracles.ChoiceField | tests/test_1basic.py:201 | `choices_field` gets `choices` and `required=False`. A length bound or uniqueness adds nothing. |
| Oracles.LimitFields | tests/test_1basic.py:202-203 | The length-limited string field and the value-limited integer field get exactly their bounds and `required=False`. |
| Oracles.BoundedDecimal | tests/test_1basic.py:204 | With precision 4 and maximum 9999 a decimal field gets `max_digits=8`. |
| Oracles.SequencePrimaryKeyIsReadOnly | tests/test_1basic.py:244 | `auto_field`, a sequence primary key, gets exactly `model_field` and `read_only=True`. |
| Oracles.AutoFieldModelInfo | tests/test_1basic.py:232-244 | For `AutoFieldModel`, both `pk` and `auto_field` name the sequence primary key in `fields_and_pk`, in that order. |
| Oracles.LabelledDecimalChoices | tests/test_1basic.py:111 | For the declared field `choices_field_with_nonstandard_args`, given that `needs_label` holds: it keeps its label and digits and stops at `choices`. The tests build this serializer but expect no output. |
| Oracles.ComplexDateTimeLengthBound | rest_framework_mongoengine/utils.py:155-161 | A complex date-time field keeps its length bound. A plain date-time field drops it. |
| Oracles.ThreeDigitDecimal | rest_framework_mongoengine/utils.py:125-126 | With precision 2 and maximum 999, `max_digits` is 5. |
| Oracles.NegativeMaximumCountsSign | rest_framework_mongoengine/utils.py:125-126 | The sign of a negative maximum counts: -50 with precision 2 gives 5. |
| Oracles.MisplacedBoundsDropped | rest_framework_mongoengine/utils.py:155-169 | A length bound on an integer field is dropped. So is a value bound on a string field. |
| Oracles.ZeroDefaultIgnored | rest_framework_mongoengine/utils.py:140-144 | A default of 0 leaves `required` true and is not passed on. A default of 7 clears `required` and is passed on. |
| Oracles.ContainerDefaultNotPassed | rest_framework_mongoengine/utils.py:143-144 | A list field's default clears `required` but is not passed on. |
| Oracles.UniqueStringField | rest_framework_mongoengine/utils.py:171-178 | A unique string field gets one uniqueness validator for its document. With its own validation as well it gets two, the field's own first. |

## Left out

- `_resolve_model` (utils.py:34-48) and `is_abstract_model` (utils.py:93-94)
  are left out. They are a registry lookup and Python reflection with no
  logic of their own.
- `needs_label` and `capfirst` belong to the serializer framework.
  `GetFieldKwargs` takes them as function parameters `needsLabel` and
  `capFirst` and treats them as uninterpreted. `needsLabel` receives the
  verbose name rather than the field object, since that is all it reads of
  the field.
- Building `UniqueValidator` (utils.py:172-174) is modelled as the token
  `UniqueValidator(document)`, where the document stands for
  `model_field.model`. The queryset and the message are not modelled.
- The class hierarchy of the mapper's fields is left out, and so is
  `isinstance`. A `FieldKind` enumeration with `IsString`, `IsNumeric` and
  `IsComplex` replaces them. `ComplexDateTimeField` derives from
  `StringField`, so `IsString` includes it. `OtherKind` stands for any
  other field class, such as a custom field. `SequenceField` has its own
  kind.
- Floats and `Decimal` are left out. A `Decimal` inside a choices list is
  written as its string. `max_value`, `min_value` and `precision`
  are integers, and `len(str(max_value))` is the length of the integer's
  decimal string, sign included.
- A field's `validation` is a callable or `None`, and a callable is always
  truthy. It is therefore modelled as an optional callable name.
- Field `default` and `choices` values are a small Python value type
  (`Fields.Value`) with Python truthiness. A callable default is always
  truthy, and it is not called.
- A `KeyError` raised by `model._fields[...]` is a `Failure(KeyError(name))`
  result rather than an exception. `issubclass(model, EmbeddedDocument)`
  is a boolean of the document.
- OrderedDicts.Update, OrderedDicts.Items, OrderedDicts.Lift and
  FieldInfos.FieldsAndPk require the dictionary representation invariant
  (`Valid`). It holds for every dictionary the model builds, and a Python
  `OrderedDict` always satisfies it.
- FieldInfos.MergedRelations is stated only for the two empty relation maps.
  The code never produces any other.
- The tests' Django serializer construction, `repr` output and database
  round trips are not modelled. Only their expected field keywords are
  stated, in the eight test-derived `Oracles` lemmas.
