/** The generic node of _internal.py: a mutable field map (`__dict__`) that
    also holds the non-owning `_parent` link, built by merging a dictionary
    into it, validating, and constructing children. */
module Internal {
  import opened Errors
  import opened PyValues
  import opened Validation
  import Encoder

  /** The class of a node: one of the two meta classes, or a subclass of one. */
  datatype ClassKind =
    | MetaHarBase
    | KeyValueBase
    | MetaHarSubclass(name: string)
    | KeyValueSubclass(name: string)
  {
    predicate IsAbstract() { MetaHarBase? || KeyValueBase? }

    /** The class inherits `_KeyValueHar.validate_input`. */
    predicate IsKeyValue() { KeyValueBase? || KeyValueSubclass? }

    function Name(): string {
      match this
      case MetaHarBase => "_MetaHar"
      case KeyValueBase => "_KeyValueHar"
      case MetaHarSubclass(n) => n
      case KeyValueSubclass(n) => n
    }
  }

  /** The types the base `validate_input` demands: name and value are text,
      and so is comment when it is present. */
  function InputSchema(fields: map<string, Value>): (s: Schema)
    ensures s.Keys == {"name", "value"} + (if "comment" in fields then {"comment"} else {})
    ensures forall f :: f in s ==> s[f] == Text
  {
    var base := map["name" := Text, "value" := Text];
    if "comment" in fields then base["comment" := Text] else base
  }

  /** What `validate_input` accepts. `_KeyValueHar` checks presence only: it
      builds the same type table but never checks it. */
  predicate InputValid(kind: ClassKind, fields: map<string, Value>) {
    "name" in fields && "value" in fields &&
    (!kind.IsKeyValue() ==> SchemaHolds(fields, InputSchema(fields)))
  }

  /** The field map a successful `__init__` leaves, or None when it raises.
      A JSON text is handed to `decode` (json.loads); the base `set_defaults`
      and `_construct` do nothing. */
  function InitResult(kind: ClassKind, initFrom: Value, parent: Value, empty: bool,
                      decode: string -> Option<Value>): Option<map<string, Value>>
  {
    if kind.IsAbstract() then None
    else if !Truthy(initFrom) then Some(map["_parent" := parent])
    else if !(initFrom.IsText() || initFrom.Dict?) then None
    else
      var decoded := if initFrom.IsText() then decode(initFrom.s) else Some(initFrom);
      if decoded.None? || !decoded.value.Dict? then None
      else
        var merged := map["_parent" := parent] + decoded.value.m;
        if InputValid(kind, merged) then Some(merged) else None
  }

  /** Neither meta class can be instantiated, whatever the arguments. */
  lemma MetaClassesNeverInstantiate(initFrom: Value, parent: Value, empty: bool,
                                    decode: string -> Option<Value>)
    ensures InitResult(MetaHarBase, initFrom, parent, empty, decode).None?
    ensures InitResult(KeyValueBase, initFrom, parent, empty, decode).None?
  {
  }

  /** Without input (None, or any falsy value such as an empty dict) a node
      holds only its parent link, with or without `empty`, and nothing is
      validated. */
  lemma NoInputSetsNoFields(kind: ClassKind, initFrom: Value, parent: Value, empty: bool,
                            decode: string -> Option<Value>)
    requires !kind.IsAbstract() && !Truthy(initFrom)
    ensures InitResult(kind, initFrom, parent, empty, decode) == Some(map["_parent" := parent])
  {
  }

  /** A non-empty dict is merged over the parent link (its own keys win, even
      `_parent`) and the node exists exactly when the merge validates. */
  lemma DictInputIsMergedThenValidated(kind: ClassKind, m: map<string, Value>, parent: Value,
                                       empty: bool, decode: string -> Option<Value>)
    requires !kind.IsAbstract() && m != map[]
    ensures var r := InitResult(kind, Dict(m), parent, empty, decode);
            (r.Some? <==> InputValid(kind, map["_parent" := parent] + m)) &&
            (r.Some? ==> r.value.Keys == m.Keys + {"_parent"} &&
                         (forall k :: k in m ==> r.value[k] == m[k]) &&
                         ("_parent" !in m ==> r.value["_parent"] == parent))
  {
  }

  /** A key-value node accepts a name and a value of any type. */
  lemma KeyValueChecksPresenceOnly(kind: ClassKind, fields: map<string, Value>)
    requires kind.IsKeyValue()
    ensures InputValid(kind, fields) <==> "name" in fields && "value" in fields
  {
  }

  /** A plain node demands a name and a value that are both text, and a
      comment that is text when one is present. */
  lemma PlainInputRule(kind: ClassKind, fields: map<string, Value>)
    requires !kind.IsKeyValue()
    ensures InputValid(kind, fields) <==>
              "name" in fields && "value" in fields &&
              fields["name"].IsText() && fields["value"].IsText() &&
              ("comment" in fields ==> fields["comment"].IsText())
  {
    var s := InputSchema(fields);
    if "name" in fields && "value" in fields {
      assert "name" in s && "value" in s;
      assert "comment" in fields ==> "comment" in s;
      if fields["name"].IsText() && fields["value"].IsText() &&
         ("comment" in fields ==> fields["comment"].IsText()) {
        forall f | f in s ensures Conforms(fields, f, s[f]) {
          assert f == "name" || f == "value" || f == "comment";
        }
      }
    }
  }

  /** `_has_fields` as written: its raise names MissingValueException, which
      _internal.py never defines, so a missing field surfaces as NameError. */
  function HasFieldsAsWritten(fields: map<string, Value>, names: seq<string>): (o: Outcome)
    ensures o.Pass? <==> AllPresent(fields, names)
    ensures o.Fail? ==> o.error == NameError("MissingValueException")
  {
    if AllPresent(fields, names) then Pass else Fail(NameError("MissingValueException"))
  }

  /** A node built from `{"comment": "c"}` lacks name and value, and the presence test
      raises NameError instead of MissingValue, in either order of the two. */
  lemma MissingNameRaisesNameError()
    ensures var fields := map["_parent" := Null, "comment" := Unicode("c")];
            HasFieldsAsWritten(fields, ["name", "value"]) == Fail(NameError("MissingValueException")) &&
            HasFieldsAsWritten(fields, ["value", "name"]) == Fail(NameError("MissingValueException"))
  {
    var fields := map["_parent" := Null, "comment" := Unicode("c")];
    assert ["name", "value"][0] !in fields;
    assert ["value", "name"][0] !in fields;
  }

  /** The result of `_get_printable_kids`: a tuple of names whose order is the
      dict's, or the string '(empty)'. */
  datatype Kids = Names(names: set<string>) | EmptyMarker

  /** The fields other than `_parent` whose value is an instance of a node,
      list, unicode, dict, int (bool included) or str. */
  function PrintableNames(fields: map<string, Value>): (r: set<string>)
    ensures r <= fields.Keys - {"_parent"}
    ensures forall k :: k in fields && k != "_parent" ==> (k in r <==> IsPrintable(fields[k]))
  {
    set k | k in fields && k != "_parent" && IsPrintable(fields[k])
  }

  /** `_get_printable_kids`. */
  function PrintableKids(fields: map<string, Value>): (r: Kids)
    ensures r.EmptyMarker? <==> PrintableNames(fields) == {}
    ensures r.Names? ==> r.names == PrintableNames(fields)
  {
    var ns := PrintableNames(fields);
    if ns == {} then EmptyMarker else Names(ns)
  }

  predicate IsSubstring(a: string, b: string) {
    exists i, j :: 0 <= i <= j <= |b| && b[i..j] == a
  }

  /** `__contains__`: membership in the printable kids. When there are none,
      the test runs against the string '(empty)' and is a substring test. */
  predicate Contains(fields: map<string, Value>, obj: string) {
    match PrintableKids(fields)
    case Names(ns) => obj in ns
    case EmptyMarker => IsSubstring(obj, "(empty)")
  }

  lemma ContainsOfPrintable(fields: map<string, Value>, obj: string)
    requires PrintableNames(fields) != {}
    ensures Contains(fields, obj) <==> obj in fields && obj != "_parent" && IsPrintable(fields[obj])
  {
  }

  /** With no printable field, "empty" is "contained" and a longer name is not. */
  lemma ContainsOfEmptyNode(fields: map<string, Value>, obj: string)
    requires PrintableNames(fields) == {}
    ensures Contains(fields, "empty")
    ensures |obj| > 7 ==> !Contains(fields, obj)
  {
    assert "(empty)"[1..6] == "empty";
  }

  /** `__iter__`: the values it yields, each under the field it comes from
      (the order is the dict's and is not modelled). Its own filter drops the
      key `_parent` (compared as is, not through `str`) and keeps values
      passing the same isinstance chain as the printable view. */
  function IterFields(fields: map<string, Value>): map<string, Value> {
    map k | k in fields && k != "_parent" && IsPrintable(fields[k]) :: fields[k]
  }

  /** `__iter__` and `__contains__` agree with `_get_printable_kids`: what is
      iterated is exactly what is listed, and so contained. */
  lemma {:induction false} IterMatchesKids(fields: map<string, Value>, k: string)
    ensures IterFields(fields).Keys == PrintableNames(fields)
    ensures k in IterFields(fields) <==> PrintableKids(fields).Names? && k in PrintableKids(fields).names
    ensures k in IterFields(fields) ==> Contains(fields, k) && IterFields(fields)[k] == fields[k]
  {
    var it := IterFields(fields);
    forall x ensures x in it <==> x in PrintableNames(fields) {
      if x in fields && x != "_parent" {
        assert x in it <==> IsPrintable(fields[x]);
      }
    }
  }

  /** `_get`: the attribute's value, or `default` (by default the text
      '[uninitialized]') when the node has no such attribute. */
  function Get(fields: map<string, Value>, name: string, default: Value := Str("[uninitialized]")): Value {
    if name in fields then fields[name] else default
  }

  /** After `__init__`, `_get` of `_parent` never falls back to the default,
      and it is the parent given unless the input dict itself had a
      `_parent` key; every key of an input dict reads as its value. */
  lemma GetAfterInit(kind: ClassKind, initFrom: Value, parent: Value, empty: bool,
                     decode: string -> Option<Value>, name: string, default: Value)
    requires InitResult(kind, initFrom, parent, empty, decode).Some?
    ensures var fields := InitResult(kind, initFrom, parent, empty, decode).value;
            (!Truthy(initFrom) || (initFrom.Dict? && "_parent" !in initFrom.m) ==>
               Get(fields, "_parent", default) == parent) &&
            (initFrom.Dict? && name in initFrom.m ==> Get(fields, name, default) == initFrom.m[name]) &&
            "_parent" in fields && Get(fields, "_parent", default) == fields["_parent"]
  {
  }

  /** `_get` agrees with iteration on every field iteration yields, and
      gives the default exactly for names the node does not hold. */
  lemma GetAgreesWithIter(fields: map<string, Value>, name: string, default: Value)
    ensures name in IterFields(fields) ==> Get(fields, name, default) == IterFields(fields)[name]
    ensures name !in fields ==> Get(fields, name, default) == default
    ensures name in fields ==> Get(fields, name, default) == Get(fields, name)
  {
  }

  /** The field map `replace` starts from: the source encoded to JSON and
      decoded into a new node of `kind` whose parent is None, or None when
      encoding raises TypeError or the new node fails validation. */
  function ReplaceCopy(source: ClassKind, fields: map<string, Value>, kind: ClassKind,
                       zone: TimeZone, iso: DateTime -> string): Option<map<string, Value>>
  {
    if kind.IsAbstract() then None
    else
      match Encoder.Reload(Node(source.Name(), fields), zone, iso)
      case None => None
      case Some(copy) =>
        if !copy.Dict? then None
        else
          var merged := map["_parent" := Null] + copy.m;
          if InputValid(kind, merged) then Some(merged) else None
  }

  /** The copy holds every field of the source, as the JSON round trip leaves
      it (plain JSON values unchanged), and a fresh parent link of None. */
  lemma ReplaceCopyAgrees(source: ClassKind, fields: map<string, Value>, kind: ClassKind,
                          zone: TimeZone, iso: DateTime -> string, k: string)
    requires ReplaceCopy(source, fields, kind, zone, iso).Some?
    ensures var copy := ReplaceCopy(source, fields, kind, zone, iso).value;
            copy.Keys == fields.Keys + {"_parent"} && copy["_parent"] == Null &&
            (k in fields && k != "_parent" ==>
               Encoder.Reload(fields[k], zone, iso) == Some(copy[k]) &&
               (Encoder.IsJsonValue(fields[k]) ==> copy[k] == fields[k]))
  {
    if k in fields && k != "_parent" && Encoder.IsJsonValue(fields[k]) {
      Encoder.JsonValueReloadsToItself(fields[k], zone, iso);
    }
  }

  class MetaHarObject {
    const kind: ClassKind
    var dict: map<string, Value>

    /** Allocation plus the first statement of `__init__`. */
    constructor (kind: ClassKind, parent: Value)
      ensures this.kind == kind && dict == map["_parent" := parent]
    {
      this.kind := kind;
      dict := map["_parent" := parent];
    }

    /** `__init__`: refuse the meta classes, store the parent, then build
        from a dict or JSON text, or leave the node with defaults (the base
        `set_defaults` sets nothing). */
    static method Create(kind: ClassKind, initFrom: Value, parent: Value, empty: bool,
                         decode: string -> Option<Value>)
      returns (r: Result<MetaHarObject>)
      ensures r.Ok? <==> InitResult(kind, initFrom, parent, empty, decode).Some?
      ensures r.Ok? ==> fresh(r.value) && r.value.kind == kind &&
                        r.value.dict == InitResult(kind, initFrom, parent, empty, decode).value
      ensures kind.IsAbstract() ==> r == Err(AssertionError(AbstractClass))
      ensures !kind.IsAbstract() && Truthy(initFrom) && !(initFrom.IsText() || initFrom.Dict?) ==>
                r == Err(AssertionError(BadInputType))
    {
      if kind.IsAbstract() {
        return Err(AssertionError(AbstractClass));
      }
      var node := new MetaHarObject(kind, parent);
      if Truthy(initFrom) {
        if !(initFrom.IsText() || initFrom.Dict?) {
          return Err(AssertionError(BadInputType));
        }
        var decoded := initFrom;
        if initFrom.IsText() {
          var d := decode(initFrom.s);
          if d.None? {
            return Err(JsonDecodeError);
          }
          decoded := d.value;
        }
        var o := node.FromDict(decoded);
        if o.Fail? {
          return Err(o.error);
        }
      }
      return Ok(node);
    }

    /** `from_dict`: merge the given keys over the fields (the given value
        wins), then validate; the merge stays even when validation fails. */
    method FromDict(jsonDict: Value) returns (o: Outcome)
      modifies this
      ensures !jsonDict.Dict? ==> o == Fail(AssertionError(NotADict)) && dict == old(dict)
      ensures jsonDict.Dict? ==> dict == old(dict) + jsonDict.m
      ensures jsonDict.Dict? ==> (o.Pass? <==> InputValid(kind, dict))
    {
      if !jsonDict.Dict? {
        return Fail(AssertionError(NotADict));
      }
      dict := dict + jsonDict.m;
      o := ValidateInput();
    }

    /** `validate_input` of `_MetaHar` or `_KeyValueHar`. The required names
        are the keys of a dict, checked in the dict's order. */
    method ValidateInput() returns (o: Outcome)
      ensures o.Pass? <==> InputValid(kind, dict)
      ensures o.Fail? && !("name" in dict && "value" in dict) ==>
                o.error.MissingValue? && o.error.inClass == kind.Name() &&
                o.error.field in {"name", "value"} && o.error.field !in dict
      ensures o.Fail? && "name" in dict && "value" in dict ==>
                !kind.IsKeyValue() && o.error.ValidationError? && o.error.reason.WrongType?
    {
      var order: seq<string> := ["name", "value"];
      if * {
        order := ["value", "name"];
      }
      assert |order| == 2 && forall i :: 0 <= i < 2 ==> order[i] in {"name", "value"};
      assert AllPresent(dict, order) <==> "name" in dict && "value" in dict by {
        assert "name" in order && "value" in order;
      }
      o := HasFields(dict, order, kind.Name());
      if o.Fail? || kind.IsKeyValue() {
        return;
      }
      o := CheckFieldTypes(dict, InputSchema(dict), kind.Name());
    }

    /** `replace`: a new node of the class named Request (`kind`), decoded from
        this node's JSON, with each given key written over it unvalidated. This
        node is left as it was. */
    method Replace(kwargs: map<string, Value>, kind: ClassKind, zone: TimeZone,
                   iso: DateTime -> string) returns (r: Result<MetaHarObject>)
      ensures unchanged(this)
      ensures r.Ok? <==> ReplaceCopy(this.kind, dict, kind, zone, iso).Some?
      ensures r.Ok? ==> fresh(r.value) && r.value.kind == kind &&
                        r.value.dict == ReplaceCopy(this.kind, dict, kind, zone, iso).value + kwargs
    {
      if kind.IsAbstract() {
        return Err(AssertionError(AbstractClass));
      }
      var text := Encoder.Reload(Node(this.kind.Name(), dict), zone, iso);
      if text.None? {
        return Err(TypeError);
      }
      assert text.value.Dict?;
      var copy := new MetaHarObject(kind, Null);
      var o := copy.FromDict(text.value);
      if o.Fail? {
        return Err(o.error);
      }
      copy.dict := copy.dict + kwargs;
      return Ok(copy);
    }
  }
}
