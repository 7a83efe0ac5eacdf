/** The field checks every HAR node runs while it is constructed: required
    fields present, fields of the right exact type, fields not empty. They work
    on the node's field map, which is `_json` for the nodes of har.py and
    `__dict__` for those of _internal.py. */
module Validation {
  import opened Errors
  import opened PyValues

  /** A schema entry: one exact type (`type(x) is t`) or a list of accepted
      types (`type(x) in ts`). */
  datatype TypeSpec = Exact(tag: Tag) | OneOf(tags: set<Tag>)

  type Schema = map<string, TypeSpec>

  /** `[unicode, str]`. */
  const Text: TypeSpec := OneOf({TUnicode, TStr})

  /** The field is present and its exact type is accepted by `spec`. */
  predicate Conforms(present: map<string, Value>, field: string, spec: TypeSpec) {
    field in present &&
    match spec
    case Exact(t) => TypeOf(present[field]) == t
    case OneOf(ts) => TypeOf(present[field]) in ts
  }

  predicate SchemaHolds(present: map<string, Value>, schema: Schema) {
    forall f :: f in schema ==> Conforms(present, f, schema[f])
  }

  predicate AllPresent(present: map<string, Value>, fields: seq<string>) {
    forall i :: 0 <= i < |fields| ==> fields[i] in present
  }

  /** `f` is the first of `fields`, in argument order, that is absent. */
  ghost predicate FirstMissingIs(present: map<string, Value>, fields: seq<string>, f: string) {
    exists i :: 0 <= i < |fields| && fields[i] == f && f !in present &&
      forall j :: 0 <= j < i ==> fields[j] in present
  }

  /** `_has_fields`: raise MissingValue for the first absent field. */
  method HasFields(present: map<string, Value>, fields: seq<string>, inClass: string)
    returns (o: Outcome)
    ensures o.Pass? <==> AllPresent(present, fields)
    ensures o.Fail? ==> o.error.MissingValue? && o.error.inClass == inClass &&
                        FirstMissingIs(present, fields, o.error.field)
  {
    for i := 0 to |fields|
      invariant forall j :: 0 <= j < i ==> fields[j] in present
    {
      if fields[i] !in present {
        return Fail(MissingValue(fields[i], inClass));
      }
    }
    return Pass;
  }

  /** The ValidationError message for a field that failed the type check: an
      absent field raises KeyError inside the type test, which is re-raised. */
  function TypeFailure(present: map<string, Value>, field: string, inClass: string): Reason {
    if field in present then WrongType(inClass, field) else NoSuchField(field)
  }

  /** `_check_field_types`: every field of the schema must be present with an
      accepted exact type. The schema is a Python dict, so the field whose
      failure is reported is whichever the iteration reaches first. */
  method CheckFieldTypes(present: map<string, Value>, schema: Schema, inClass: string)
    returns (o: Outcome)
    ensures o.Pass? <==> SchemaHolds(present, schema)
    ensures o.Fail? ==> exists f :: f in schema && !Conforms(present, f, schema[f]) &&
                                    o.error == ValidationError(TypeFailure(present, f, inClass))
  {
    var todo := schema.Keys;
    while todo != {}
      invariant todo <= schema.Keys
      invariant forall f :: f in schema && f !in todo ==> Conforms(present, f, schema[f])
      decreases todo
    {
      var f :| f in todo;
      if !Conforms(present, f, schema[f]) {
        return Fail(ValidationError(TypeFailure(present, f, inClass)));
      }
      todo := todo - {f};
    }
    return Pass;
  }

  /** The argument of `_check_empty`: one field name or a list of them. */
  datatype FieldNames = OneName(name: string) | NameList(names: seq<string>)
  {
    function Names(): seq<string> {
      match this
      case OneName(n) => [n]
      case NameList(ns) => ns
    }
  }

  predicate NonEmptyField(present: map<string, Value>, field: string) {
    field in present && Truthy(present[field])
  }

  /** `_check_empty`: the first listed field that is falsy raises
      ValidationError; an absent one raises an uncaught KeyError. */
  method CheckEmpty(present: map<string, Value>, fields: FieldNames, inClass: string)
    returns (o: Outcome)
    ensures o.Pass? <==> forall i :: 0 <= i < |fields.Names()| ==> NonEmptyField(present, fields.Names()[i])
    ensures o.Fail? ==>
      exists i :: 0 <= i < |fields.Names()| &&
        (forall j :: 0 <= j < i ==> NonEmptyField(present, fields.Names()[j])) &&
        !NonEmptyField(present, fields.Names()[i]) &&
        o.error == (if fields.Names()[i] in present
                    then ValidationError(MustNotBeEmpty(inClass, fields.Names()[i]))
                    else KeyError(fields.Names()[i]))
  {
    var names := fields.Names();
    for i := 0 to |names|
      invariant forall j :: 0 <= j < i ==> NonEmptyField(present, names[j])
    {
      if names[i] !in present {
        return Fail(KeyError(names[i]));
      }
      if !Truthy(present[names[i]]) {
        return Fail(ValidationError(MustNotBeEmpty(inClass, names[i])));
      }
    }
    return Pass;
  }
}
