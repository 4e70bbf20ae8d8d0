/** `get_field_info`: the field metadata of a document class. The
    primary key, the declared fields in order, and the merged
    `fields_and_pk` view; relation maps exist for the serializer's sake
    but are always empty, since the store has no relations. */
module FieldInfos {
  import opened Wrappers
  import opened Fields
  import opened OrderedDicts

  /** A document class as the mapper describes it: whether it is embedded
      (has no identity of its own), the declared field names in order
      (`_fields_ordered`), the field definitions by name (`_fields`) and the
      name of its identity field (`_meta['id_field']`). */
  datatype Document = Document(
    embedded: bool,
    fieldsOrdered: seq<string>,
    fieldMap: map<string, Field>,
    idField: string)

  /** A relation between documents; declared but never produced. */
  datatype RelationInfo = RelationInfo(modelField: Field, related: string, toMany: bool, hasThroughModel: bool)

  datatype FieldInfo = FieldInfo(
    pk: Option<Field>,
    fields: Dict<string, Field>,
    forwardRelations: Dict<string, RelationInfo>,
    reverseRelations: Dict<string, RelationInfo>,
    fieldsAndPk: Dict<string, Option<Field>>,
    relations: Dict<string, RelationInfo>)

  /** The lookup failure `_fields[name]` raises for a missing name. */
  datatype LookupError = KeyError(key: string)

  /** The primary key: none for an embedded document, otherwise the field
      the identity-field entry names. */
  function PrimaryKey(doc: Document): (r: Result<Option<Field>, LookupError>)
    ensures r.Failure? <==> !doc.embedded && doc.idField !in doc.fieldMap
    ensures r.Failure? ==> r.error == KeyError(doc.idField)
    ensures r.Success? ==> (r.value.None? <==> doc.embedded)
    ensures r.Success? && r.value.Some? ==> r.value.value == doc.fieldMap[doc.idField]
  {
    if doc.embedded then Success(None)
    else if doc.idField in doc.fieldMap then Success(Some(doc.fieldMap[doc.idField]))
    else Failure(KeyError(doc.idField))
  }

  /** The loop `for name in names: acc[name] = fieldMap[name]`, which stops
      at the first name with no definition; when it completes, it is the
      run of assignments `SetAll` describes. */
  function CollectFields(acc: Dict<string, Field>, names: seq<string>, fieldMap: map<string, Field>)
    : (r: Result<Dict<string, Field>, LookupError>)
    ensures r.Success? <==> forall n :: n in names ==> n in fieldMap
    ensures r.Success? ==> r.value == SetAll(acc, names, fieldMap)
    decreases |names|
  {
    if |names| == 0 then Success(acc)
    else if names[0] !in fieldMap then Failure(KeyError(names[0]))
    else
      var r := CollectFields(Set(acc, names[0], fieldMap[names[0]]), names[1..], fieldMap);
      assert forall n :: n in names <==> n == names[0] || n in names[1..];
      r
  }

  /** The loop raises for the first undefined name and for no other. */
  lemma {:induction false} CollectFieldsFailsAtFirstMissing(
    acc: Dict<string, Field>, names: seq<string>, fieldMap: map<string, Field>, i: nat)
    requires i < |names| && names[i] !in fieldMap
    requires forall j :: 0 <= j < i ==> names[j] in fieldMap
    ensures CollectFields(acc, names, fieldMap) == Failure(KeyError(names[i]))
    decreases |names|
  {
    if i > 0 {
      CollectFieldsFailsAtFirstMissing(Set(acc, names[0], fieldMap[names[0]]), names[1..], fieldMap, i - 1);
    }
  }

  /** `getattr(pk, 'name', 'pk')`. */
  function PkName(pk: Option<Field>): string {
    if pk.Some? then pk.value.name else "pk"
  }

  /** The keys `fields_and_pk` holds before the declared fields are merged
      in: `'pk'`, then the primary key's own name unless that is `'pk'` too. */
  function PkKeys(pk: Option<Field>): (r: seq<string>)
    ensures Distinct(r) && |r| >= 1 && r[0] == "pk"
    ensures forall k :: k in r <==> k == "pk" || k == PkName(pk)
  {
    if PkName(pk) == "pk" then ["pk"] else ["pk", PkName(pk)]
  }

  /** `fields_and_pk`: `'pk'` and the primary key's own name, both mapped
      to the primary key, then every declared field merged in. A declared
      field that shares one of the first two names overwrites the value
      but keeps the early position. */
  function FieldsAndPk(pk: Option<Field>, fields: Dict<string, Field>): (r: Dict<string, Option<Field>>)
    requires Valid(fields)
    ensures Valid(r)
    ensures r.keys == PkKeys(pk) + Fresh(fields.keys, Elements(PkKeys(pk)))
    ensures forall k :: k in fields.entries ==> Get(r, k) == Some(Some(fields.entries[k]))
    ensures forall k :: k !in fields.entries && (k == "pk" || k == PkName(pk)) ==> Get(r, k) == Some(pk)
    ensures forall k :: k !in fields.entries && k != "pk" && k != PkName(pk) ==> Get(r, k) == None
  {
    var start := Set(Set(Empty(), "pk", pk), PkName(pk), pk);
    assert start.keys == PkKeys(pk);
    assert start.entries.Keys == Elements(PkKeys(pk));
    Update(start, Lift(fields))
  }

  /** The `fields` loop of `get_field_info`, started from an empty
      dictionary: each declared name once, in order of first declaration. */
  function DeclaredFields(doc: Document): (r: Result<Dict<string, Field>, LookupError>)
    ensures r.Failure? <==> exists n :: n in doc.fieldsOrdered && n !in doc.fieldMap
    ensures r.Success? ==> Valid(r.value)
    ensures r.Success? ==> r.value.keys == Fresh(doc.fieldsOrdered, {})
    ensures r.Success? ==> forall n :: n in doc.fieldsOrdered ==> Get(r.value, n) == Some(doc.fieldMap[n])
    ensures r.Success? ==> forall n :: n !in doc.fieldsOrdered ==> Get(r.value, n) == None
  {
    var empty: Dict<string, Field> := Empty();
    var r := CollectFields(empty, doc.fieldsOrdered, doc.fieldMap);
    assert empty.entries.Keys == {} && empty.keys == [];
    assert r.Success? ==> r.value.keys == [] + Fresh(doc.fieldsOrdered, {}) == Fresh(doc.fieldsOrdered, {});
    assert forall n :: Get(empty, n) == None;
    r
  }

  /** `OrderedDict(list(forward.items()) + list(reverse.items()))` for the
      two empty relation maps. */
  function MergedRelations(forward: Dict<string, RelationInfo>, reverse: Dict<string, RelationInfo>)
    : (r: Dict<string, RelationInfo>)
    requires forward == Empty() && reverse == Empty()
    ensures r == Empty()
  {
    var r := FromItems(Items(forward) + Items(reverse));
    r
  }

  /** `get_field_info(doc)`. */
  function GetFieldInfo(doc: Document): (r: Result<FieldInfo, LookupError>)
    ensures r.Failure? <==>
              (!doc.embedded && doc.idField !in doc.fieldMap)
              || exists n :: n in doc.fieldsOrdered && n !in doc.fieldMap
    ensures !doc.embedded && doc.idField !in doc.fieldMap ==> r == Failure(KeyError(doc.idField))
    // the primary key
    ensures r.Success? ==> (r.value.pk.None? <==> doc.embedded)
    ensures r.Success? && r.value.pk.Some? ==> r.value.pk.value == doc.fieldMap[doc.idField]
    // the declared fields, each once, in order of first declaration
    ensures r.Success? ==> Valid(r.value.fields)
    ensures r.Success? ==> r.value.fields.keys == Fresh(doc.fieldsOrdered, {})
    ensures r.Success? ==> forall n :: n in doc.fieldsOrdered ==> Get(r.value.fields, n) == Some(doc.fieldMap[n])
    ensures r.Success? ==> forall n :: n !in doc.fieldsOrdered ==> Get(r.value.fields, n) == None
    // the merged view
    ensures r.Success? ==> r.value.fieldsAndPk == FieldsAndPk(r.value.pk, r.value.fields)
    // no relations
    ensures r.Success? ==> r.value.forwardRelations == Empty() && r.value.reverseRelations == Empty()
    ensures r.Success? ==> r.value.relations == Empty()
  {
    var pk :- PrimaryKey(doc);
    var fields :- DeclaredFields(doc);
    var forward: Dict<string, RelationInfo> := Empty();
    var reverse: Dict<string, RelationInfo> := Empty();
    Success(FieldInfo(pk, fields, forward, reverse, FieldsAndPk(pk, fields), MergedRelations(forward, reverse)))
  }

  /** With distinct declared names, `fields` lists them in declaration order. */
  lemma FieldsFollowDeclarationOrder(doc: Document)
    requires doc.embedded || doc.idField in doc.fieldMap
    requires forall n :: n in doc.fieldsOrdered ==> n in doc.fieldMap
    requires Distinct(doc.fieldsOrdered)
    ensures GetFieldInfo(doc).value.fields.keys == doc.fieldsOrdered
  {
    FreshOfDistinct(doc.fieldsOrdered, {});
  }

  /** The first undefined declared name is the one reported, unless the
      identity field is missing first. */
  lemma MissingFieldReported(doc: Document, i: nat)
    requires doc.embedded || doc.idField in doc.fieldMap
    requires i < |doc.fieldsOrdered| && doc.fieldsOrdered[i] !in doc.fieldMap
    requires forall j :: 0 <= j < i ==> doc.fieldsOrdered[j] in doc.fieldMap
    ensures GetFieldInfo(doc) == Failure(KeyError(doc.fieldsOrdered[i]))
  {
    CollectFieldsFailsAtFirstMissing(Empty(), doc.fieldsOrdered, doc.fieldMap, i);
  }

  /** In terms of the document: `fields_and_pk` starts with `'pk'` and the
      primary key's own name, maps every declared name to its field, and
      maps `'pk'` and the primary key's name to the primary key unless a
      declared field of that name took their place. */
  lemma FieldsAndPkLayout(doc: Document)
    requires doc.embedded || doc.idField in doc.fieldMap
    requires forall n :: n in doc.fieldsOrdered ==> n in doc.fieldMap
    ensures var info := GetFieldInfo(doc).value;
            && info.fieldsAndPk.keys[0] == "pk"
            && (PkName(info.pk) != "pk" ==> info.fieldsAndPk.keys[1] == PkName(info.pk))
            && (forall n :: n in doc.fieldsOrdered ==> Get(info.fieldsAndPk, n) == Some(Some(doc.fieldMap[n])))
            && ("pk" !in doc.fieldsOrdered ==> Get(info.fieldsAndPk, "pk") == Some(info.pk))
            && (PkName(info.pk) !in doc.fieldsOrdered ==> Get(info.fieldsAndPk, PkName(info.pk)) == Some(info.pk))
            && (forall n :: n in info.fieldsAndPk.entries <==> n == "pk" || n == PkName(info.pk) || n in doc.fieldsOrdered)
  {
    var info := GetFieldInfo(doc).value;
    var head := PkKeys(info.pk);
    assert info.fieldsAndPk.keys == head + Fresh(info.fields.keys, Elements(head));
    assert info.fieldsAndPk.keys[0] == head[0];
    assert PkName(info.pk) != "pk" ==> info.fieldsAndPk.keys[1] == head[1];
    assert forall n :: n in doc.fieldsOrdered ==> n in info.fields.entries && info.fields.entries[n] == doc.fieldMap[n];
  }

  /** An embedded document has no primary key: `fields_and_pk` maps
      `'pk'` to nothing and lists the declared names after it. */
  lemma EmbeddedFieldsAndPk(doc: Document)
    requires doc.embedded
    requires forall n :: n in doc.fieldsOrdered ==> n in doc.fieldMap
    requires Distinct(doc.fieldsOrdered) && "pk" !in doc.fieldsOrdered
    ensures GetFieldInfo(doc).Success?
    ensures var info := GetFieldInfo(doc).value;
            && info.pk.None?
            && info.fieldsAndPk.keys == ["pk"] + doc.fieldsOrdered
            && Get(info.fieldsAndPk, "pk") == Some(None)
  {
    var info := GetFieldInfo(doc).value;
    FreshOfDistinct(doc.fieldsOrdered, {});
    assert Get(info.fields, "pk") == None;
    WithoutPrimaryKey(info.fields);
  }

  /** With no primary key and no declared field called `'pk'`, the merged
      view is `'pk'` followed by the declared fields. */
  lemma WithoutPrimaryKey(fields: Dict<string, Field>)
    requires Valid(fields) && "pk" !in fields.entries
    ensures FieldsAndPk(None, fields).keys == ["pk"] + fields.keys
    ensures Get(FieldsAndPk(None, fields), "pk") == Some(None)
  {
    assert Elements(PkKeys(None)) == {"pk"};
    FreshOfDistinct(fields.keys, {"pk"});
  }

  /** One entry per distinct name among `'pk'`, the primary key's name and
      the declared names: N + 2 entries for N distinct declared names when
      neither of the first two collides with a declared one, fewer otherwise. */
  lemma FieldsAndPkSize(doc: Document)
    requires doc.embedded || doc.idField in doc.fieldMap
    requires forall n :: n in doc.fieldsOrdered ==> n in doc.fieldMap
    requires Distinct(doc.fieldsOrdered)
    ensures var info := GetFieldInfo(doc).value;
            |info.fieldsAndPk.keys| == |doc.fieldsOrdered| + |{"pk", PkName(info.pk)} - Elements(doc.fieldsOrdered)|
    ensures var info := GetFieldInfo(doc).value;
            |info.fieldsAndPk.entries| == |info.fieldsAndPk.keys|
  {
    var info := GetFieldInfo(doc).value;
    var fap := info.fieldsAndPk;
    var declared := Elements(doc.fieldsOrdered);
    FieldsAndPkLayout(doc);
    DistinctCardinality(fap.keys);
    ElementsOfMergedKeys(fap.keys, "pk", PkName(info.pk), doc.fieldsOrdered);
    DisjointUnionSize({"pk", PkName(info.pk)} - declared, declared);
    DistinctCardinality(doc.fieldsOrdered);
    DictSize(fap);
  }

  /** However the names collide, `fields_and_pk` holds at most two entries
      more than there are declared names. */
  lemma FieldsAndPkBound(doc: Document)
    requires doc.embedded || doc.idField in doc.fieldMap
    requires forall n :: n in doc.fieldsOrdered ==> n in doc.fieldMap
    ensures |GetFieldInfo(doc).value.fieldsAndPk.keys| <= |doc.fieldsOrdered| + 2
    ensures |GetFieldInfo(doc).value.fieldsAndPk.entries| <= |doc.fieldsOrdered| + 2
  {
    var info := GetFieldInfo(doc).value;
    DictSize(info.fieldsAndPk);
    var head := PkKeys(info.pk);
    FreshLength(doc.fieldsOrdered, {});
    FreshLength(info.fields.keys, Elements(head));
  }

  lemma DisjointUnionSize<T>(a: set<T>, b: set<T>)
    requires a !! b
    ensures |a + b| == |a| + |b|
  {
  }

  lemma ElementsOfMergedKeys<T(!new)>(keys: seq<T>, a: T, b: T, names: seq<T>)
    requires forall n :: n in keys <==> n == a || n == b || n in names
    ensures Elements(keys) == ({a, b} - Elements(names)) + Elements(names)
  {
  }
}
