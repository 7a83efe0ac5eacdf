/** The HAR node classes of har.py. A node keeps the dict it was built from
    (`_json`) untouched; what `_validate` and `_construct` assign to the
    instance (the Log version default, child nodes, a parsed start time) is
    kept apart, in `attrs`, and attribute reads look there first. */
module Har {
  import opened Errors
  import opened PyValues
  import opened Validation
  import opened HarSchema

  /** An instance attribute: a plain value, a child node, or a list of them. */
  datatype Member = Plain(v: Value) | Child(node: HarNode) | Children(nodes: seq<HarNode>)

  /** `a` is a node of class `c` built from `v`. */
  predicate IsNodeFor(a: Member, c: HarClass, v: Value) {
    a.Child? && a.node.cls == c && Dict(a.node.json) == v
  }

  /** `a` is a list of nodes of class `c` built, in order, from the list `v`. */
  predicate AreNodesFor(a: Member, c: HarClass, v: Value) {
    a.Children? && v.List? && |a.nodes| == |v.items| &&
    forall i :: 0 <= i < |a.nodes| ==> a.nodes[i].cls == c && Dict(a.nodes[i].json) == v.items[i]
  }

  /** The attributes each class's `_construct` assigns. */
  function ConstructedKeys(c: HarClass, json: map<string, Value>): set<string> {
    match c
    case Log =>
      {"creator", "entries"} + (if "browser" in json then {"browser"} else {}) +
      (if "pages" in json then {"pages"} else {})
    case Page => {"startedDateTime", "pageTimings"}
    case Entry => {"request", "response", "cache", "timings"}
    case _ => {}
  }

  /** What `_construct` leaves in those attributes. */
  predicate Materialised(env: Env, c: HarClass, json: map<string, Value>, attrs: map<string, Member>) {
    match c
    case Log =>
      "creator" in attrs && "creator" in json && IsNodeFor(attrs["creator"], Creator, json["creator"]) &&
      ("browser" in json ==> "browser" in attrs && IsNodeFor(attrs["browser"], Browser, json["browser"])) &&
      ("pages" in json ==> "pages" in attrs && AreNodesFor(attrs["pages"], Page, json["pages"])) &&
      "entries" in attrs && "entries" in json && AreNodesFor(attrs["entries"], Entry, json["entries"])
    case Page =>
      "startedDateTime" in json && json["startedDateTime"].IsText() &&
      env.parseDate(json["startedDateTime"].s).Some? &&
      "startedDateTime" in attrs &&
      attrs["startedDateTime"] == Plain(Date(env.parseDate(json["startedDateTime"].s).value)) &&
      "pageTimings" in attrs && "pageTimings" in json &&
      IsNodeFor(attrs["pageTimings"], PageTimings, json["pageTimings"])
    case Entry =>
      "request" in attrs && "request" in json && IsNodeFor(attrs["request"], Request, json["request"]) &&
      "response" in attrs && "response" in json && IsNodeFor(attrs["response"], Response, json["response"]) &&
      "cache" in attrs && "cache" in json && IsNodeFor(attrs["cache"], Cache, json["cache"]) &&
      "timings" in attrs && "timings" in json && IsNodeFor(attrs["timings"], Timings, json["timings"])
    case _ => true
  }

  /** Attribute lookup on a node. `_parent` and `_json` are instance
      attributes set by `__init__`; so is whatever `_validate` and
      `_construct` assigned. Any other name reaches `__getattr__`: the stored
      field, else None. */
  function Lookup(parent: Option<HarNode>, attrs: map<string, Member>, json: map<string, Value>,
                  name: string): Member
  {
    if name == "_parent" then (if parent.Some? then Child(parent.value) else Plain(Null))
    else if name == "_json" then Plain(Dict(json))
    else if name in attrs then attrs[name]
    else if name in json then Plain(json[name])
    else Plain(Null)
  }

  /** `_parent` and `_json` read as the node's own link and dict, whatever
      the dict holds. Any other name the node neither assigned nor stored
      reads as None through attribute access and raises KeyError through
      indexing; a stored name the node did not reassign reads as the stored
      value both ways. */
  lemma AttrFallsBackToJson(n: HarNode, name: string)
    ensures n.Attr("_parent") == (if n.parent.Some? then Child(n.parent.value) else Plain(Null))
    ensures n.Attr("_json") == Plain(Dict(n.json))
    ensures n.Has(name) <==> n.Item(name).Ok?
    ensures name !in n.attrs && name != "_parent" && name != "_json" ==>
              (!n.Has(name) ==> n.Attr(name) == Plain(Null) && n.Item(name) == Err(KeyError(name))) &&
              (n.Has(name) ==> n.Attr(name) == Plain(n.Item(name).value))
  {
  }

  /** The attributes a node holds once built: its class's children and, for
      a Log with an empty version, the default version. */
  function BuiltKeys(c: HarClass, json: map<string, Value>): set<string> {
    ConstructedKeys(c, json) + (if GetsDefaultVersion(c, json) then {"version"} else {})
  }

  /** What a node's attributes are once `_validate` and `_construct` have
      both run: Log's version default, if given, survives the construction. */
  lemma BuiltAttrs(cls: HarClass, json: map<string, Value>,
                   validated: map<string, Member>, built: map<string, Member>)
    requires validated == if GetsDefaultVersion(cls, json)
                          then map["version" := Plain(Str(DefaultVersion))] else map[]
    requires built.Keys == validated.Keys + ConstructedKeys(cls, json)
    requires forall k :: k in validated && k !in ConstructedKeys(cls, json) ==> built[k] == validated[k]
    requires cls.Log? ==> AllPresent(json, Required(cls)) && "version" in json
    ensures built.Keys == BuiltKeys(cls, json)
    ensures "version" in built ==> built["version"] == Plain(Str(DefaultVersion))
    ensures cls.Log? ==> ("version" in built <==> VersionIsEmpty(json["version"]))
  {
    if cls.Log? {
      assert "version" !in ConstructedKeys(cls, json);
    }
  }

  /** The attributes Log's construction leaves, step by step: the creator,
      the browser and the pages when present, the entries. */
  lemma LogAttrs(env: Env, json: map<string, Value>,
                 a0: map<string, Member>, a1: map<string, Member>, a2: map<string, Member>,
                 a3: map<string, Member>, a4: map<string, Member>,
                 creator: HarNode, browser: Option<HarNode>, pages: Option<seq<HarNode>>,
                 entries: seq<HarNode>)
    requires "creator" in json && "entries" in json
    requires a1 == a0["creator" := Child(creator)] && IsNodeFor(Child(creator), Creator, json["creator"])
    requires browser.Some? <==> "browser" in json
    requires browser.Some? ==> a2 == a1["browser" := Child(browser.value)] &&
                               IsNodeFor(Child(browser.value), Browser, json["browser"])
    requires browser.None? ==> a2 == a1
    requires pages.Some? <==> "pages" in json
    requires pages.Some? ==> a3 == a2["pages" := Children(pages.value)] &&
                             AreNodesFor(Children(pages.value), Page, json["pages"])
    requires pages.None? ==> a3 == a2
    requires a4 == a3["entries" := Children(entries)] && AreNodesFor(Children(entries), Entry, json["entries"])
    ensures a4.Keys == a0.Keys + ConstructedKeys(Log, json)
    ensures forall k :: k in a0 && k !in ConstructedKeys(Log, json) ==> a4[k] == a0[k]
    ensures Materialised(env, Log, json, a4)
  {
  }

  /** The attributes Page's construction leaves: the parsed start time and
      the page timings node. */
  lemma PageAttrs(env: Env, json: map<string, Value>, a0: map<string, Member>,
                  started: DateTime, timings: HarNode)
    requires "startedDateTime" in json && json["startedDateTime"].IsText() && "pageTimings" in json
    requires env.parseDate(json["startedDateTime"].s) == Some(started)
    requires IsNodeFor(Child(timings), PageTimings, json["pageTimings"])
    ensures var a := a0["startedDateTime" := Plain(Date(started))]["pageTimings" := Child(timings)];
      a.Keys == a0.Keys + ConstructedKeys(Page, json) &&
      (forall k :: k in a0 && k !in ConstructedKeys(Page, json) ==> a[k] == a0[k]) &&
      Materialised(env, Page, json, a)
  {
  }

  /** The attributes Entry's construction leaves: its four child nodes. */
  lemma EntryAttrs(env: Env, json: map<string, Value>, a0: map<string, Member>,
                   request: HarNode, response: HarNode, cache: HarNode, timings: HarNode)
    requires "request" in json && "response" in json && "cache" in json && "timings" in json
    requires IsNodeFor(Child(request), Request, json["request"])
    requires IsNodeFor(Child(response), Response, json["response"])
    requires IsNodeFor(Child(cache), Cache, json["cache"])
    requires IsNodeFor(Child(timings), Timings, json["timings"])
    ensures var a := a0["request" := Child(request)]["response" := Child(response)]
                       ["cache" := Child(cache)]["timings" := Child(timings)];
      a.Keys == a0.Keys + ConstructedKeys(Entry, json) &&
      (forall k :: k in a0 && k !in ConstructedKeys(Entry, json) ==> a[k] == a0[k]) &&
      Materialised(env, Entry, json, a)
  {
  }

  /** The objects a list of nodes is made of. */
  ghost function NodesRepr(ns: seq<HarNode>): set<object>
    reads set i | 0 <= i < |ns| :: ns[i]
  {
    set i, o | 0 <= i < |ns| && o in ns[i].Repr :: o
  }

  /** A list of built nodes, none reaching back to `owner`, are built
      children of `owner` once its footprint covers theirs. */
  lemma NodesBelow(env: Env, owner: object, ns: seq<HarNode>, R: set<object>)
    requires owner in R
    requires forall i :: 0 <= i < |ns| ==>
               ns[i] in ns[i].Repr && ns[i] != owner && owner !in ns[i].Repr &&
               ns[i].parent.None? && ns[i].Built(env)
    ensures forall i :: 0 <= i < |ns| ==> Below(env, owner, ns[i], R + NodesRepr(ns))
  {
    forall i | 0 <= i < |ns| ensures ns[i].Repr <= NodesRepr(ns) {
    }
  }

  /** `n` is a completely built child of `owner`, lying inside the
      footprint `R` and not reaching back to `owner`, with no parent. */
  ghost predicate Below(env: Env, owner: object, n: HarNode, R: set<object>)
    reads R - {owner}
    decreases R, 0
  {
    owner in R && n in R && n != owner && n.Repr <= R && owner !in n.Repr &&
    n.parent.None? && n.Built(env)
  }

  /** Every node held in `attrs` is a completely built child of `owner`. */
  ghost predicate Holds(env: Env, owner: object, attrs: map<string, Member>, R: set<object>)
    reads R - {owner}
    decreases R, 1
  {
    (forall k :: k in attrs && attrs[k].Child? ==> Below(env, owner, attrs[k].node, R)) &&
    (forall k, i :: k in attrs && attrs[k].Children? && 0 <= i < |attrs[k].nodes| ==>
       Below(env, owner, attrs[k].nodes[i], R))
  }

  /** A map of plain values holds no child nodes. */
  lemma HoldsOfPlain(env: Env, owner: object, attrs: map<string, Member>, R: set<object>)
    requires forall k :: k in attrs ==> attrs[k].Plain?
    ensures Holds(env, owner, attrs, R)
  {
  }

  /** Setting one attribute to built children, and growing the footprint to
      cover them, keeps every held node a built child. */
  lemma HoldsAfterSet(env: Env, owner: object, attrs: map<string, Member>, R: set<object>,
                      key: string, m: Member, R2: set<object>)
    requires R <= R2
    requires Holds(env, owner, attrs, R)
    requires m.Child? ==> Below(env, owner, m.node, R2)
    requires m.Children? ==> forall i :: 0 <= i < |m.nodes| ==> Below(env, owner, m.nodes[i], R2)
    ensures Holds(env, owner, attrs[key := m], R2)
  {
    var a := attrs[key := m];
    forall k | k in a && a[k].Child?
      ensures Below(env, owner, a[k].node, R2)
    {
      if k != key {
        assert Below(env, owner, attrs[k].node, R);
      }
    }
    forall k, i | k in a && a[k].Children? && 0 <= i < |a[k].nodes|
      ensures Below(env, owner, a[k].nodes[i], R2)
    {
      if k != key {
        assert Below(env, owner, attrs[k].nodes[i], R);
      }
    }
  }

  /** A node of one of har.py's classes. `Repr` is the node with every node
      below it. */
  class HarNode {
    const cls: HarClass
    const parent: Option<HarNode>
    const json: map<string, Value>
    var attrs: map<string, Member>
    ghost var Repr: set<object>

    /** The node is completely built: it holds exactly its class's
        attributes, each as `_construct` leaves it, and every node it holds
        is completely built in turn. */
    ghost predicate Built(env: Env)
      reads this, Repr
      decreases Repr, 3
    {
      attrs.Keys == BuiltKeys(cls, json) &&
      ("version" in attrs ==> attrs["version"] == Plain(Str(DefaultVersion))) &&
      Materialised(env, cls, json, attrs) &&
      KidsBuilt(env)
    }

    /** Every node this one holds is a completely built child of it. */
    ghost predicate KidsBuilt(env: Env)
      reads this, Repr
      decreases Repr, 2
    {
      this in Repr && Holds(env, this, attrs, Repr)
    }

    /** The first two statements of `MetaHar.__init__`, once the input is
        known to be a dict. */
    constructor (cls: HarClass, json: map<string, Value>, parent: Option<HarNode>)
      ensures this.cls == cls && this.json == json && this.parent == parent && attrs == map[]
      ensures Repr == {this}
    {
      this.cls := cls;
      this.json := json;
      this.parent := parent;
      attrs := map[];
      Repr := {this};
    }

    /** Attribute access on the node. */
    function Attr(name: string): Member
      reads this
    {
      Lookup(parent, attrs, json, name)
    }

    /** `__contains__`. */
    function Has(name: string): bool {
      name in json
    }

    /** `__getitem__`. */
    function Item(name: string): Result<Value> {
      if name in json then Ok(json[name]) else Err(KeyError(name))
    }

    /** `MetaHar.__init__`: refuse anything but a dict, then validate, then
        construct the children; the first failure is what the caller gets. */
    static method Build(env: Env, cls: HarClass, v: Value, parent: Option<HarNode>)
      returns (r: Result<HarNode>)
      ensures r.Ok? <==> Accepts(env, cls, v)
      ensures r.Err? ==> Refusal(env, cls, v, r.error)
      ensures !v.Dict? ==> r == Err(AssertionError(NotADict))
      ensures v.Dict? && !AllPresent(v.m, Required(cls)) ==>
                r.Err? && r.error.MissingValue? && r.error.inClass == ClassName(cls) &&
                FirstMissingIs(v.m, Required(cls), r.error.field)
      ensures r.Ok? ==> fresh(r.value) && r.value.cls == cls && r.value.parent == parent &&
                        Dict(r.value.json) == v
      ensures r.Ok? ==> fresh(r.value.Repr) && r.value in r.value.Repr && r.value.Built(env)
      ensures r.Ok? && cls.Log? ==>
                "version" in v.m &&
                r.value.Attr("version") ==
                  Plain(if VersionIsEmpty(v.m["version"]) then Str(DefaultVersion) else v.m["version"]) &&
                r.value.Item("version") == Ok(v.m["version"])
      decreases v, 5
    {
      if !v.Dict? {
        return Err(AssertionError(NotADict));
      }
      var node := new HarNode(cls, v.m, parent);
      var o := node.Init(env);
      if o.Fail? {
        return Err(o.error);
      }
      return Ok(node);
    }

    /** The last two statements of `MetaHar.__init__` on a new node:
        `_validate`, then `_construct`. */
    method Init(env: Env) returns (o: Outcome)
      requires attrs == map[] && Repr == {this}
      modifies this
      ensures o.Pass? <==> Accepts(env, cls, Dict(json))
      ensures o.Fail? ==> Refusal(env, cls, Dict(json), o.error)
      ensures !AllPresent(json, Required(cls)) ==>
                o.Fail? && o.error.MissingValue? && o.error.inClass == ClassName(cls) &&
                FirstMissingIs(json, Required(cls), o.error.field)
      ensures o.Pass? ==> fresh(Repr - {this}) && this in Repr && Built(env)
      ensures o.Pass? && cls.Log? ==>
                "version" in json &&
                Attr("version") == Plain(if VersionIsEmpty(json["version"]) then Str(DefaultVersion) else json["version"])
      decreases Dict(json), 4
    {
      o := Validate(env);
      if o.Fail? {
        return;
      }
      ghost var validated := attrs;
      HoldsOfPlain(env, this, attrs, Repr);
      o := Construct(env);
      if o.Fail? {
        return;
      }
      if cls.Log? {
        assert Required(Log)[0] == "version";
      }
      BuiltAttrs(cls, json, validated, attrs);
    }

    /** `C(x)` inside a `_construct`: a child node, built with no parent. */
    static method BuildChild(env: Env, cls: HarClass, v: Value) returns (r: Result<HarNode>)
      ensures r.Ok? <==> Accepts(env, cls, v)
      ensures r.Err? ==> Refusal(env, cls, v, r.error)
      ensures r.Ok? ==> IsNodeFor(Child(r.value), cls, v) && r.value.parent.None?
      ensures r.Ok? ==> fresh(r.value.Repr) && r.value in r.value.Repr && r.value.Built(env)
      decreases v, 6
    {
      r := Build(env, cls, v, None);
    }

    /** Element `i` of a list comprehension, built once the elements before
        it have been; those are left as they were. */
    static method BuildNext(env: Env, cls: HarClass, list: Value, i: nat, ghost done: seq<HarNode>)
      returns (r: Result<HarNode>)
      requires list.List? && i < |list.items|
      requires forall j :: 0 <= j < i ==> Accepts(env, cls, list.items[j])
      requires forall j :: 0 <= j < |done| ==> done[j].Built(env)
      ensures r.Ok? <==> forall j :: 0 <= j <= i ==> Accepts(env, cls, list.items[j])
      ensures r.Err? ==> Refusal(env, cls, list.items[i], r.error)
      ensures r.Ok? ==> r.value.cls == cls && Dict(r.value.json) == list.items[i]
      ensures r.Ok? ==> r.value.parent.None? && fresh(r.value.Repr) &&
                        r.value in r.value.Repr && r.value.Built(env)
      ensures forall j :: 0 <= j < |done| ==> done[j].Built(env)
      decreases list, 1
    {
      r := BuildChild(env, cls, list.items[i]);
    }

    /** `[C(x) for x in xs]`: build every element of a list, in order. */
    static method BuildAll(env: Env, cls: HarClass, list: Value) returns (r: Result<seq<HarNode>>)
      requires list.List?
      ensures r.Ok? <==> forall i :: 0 <= i < |list.items| ==> Accepts(env, cls, list.items[i])
      ensures r.Err? ==> ListRefusal(env, cls, list, r.error)
      ensures r.Ok? ==> AreNodesFor(Children(r.value), cls, list)
      ensures r.Ok? ==> forall i :: 0 <= i < |r.value| ==>
                          r.value[i].parent.None? && fresh(r.value[i].Repr) &&
                          r.value[i] in r.value[i].Repr && r.value[i].Built(env)
      decreases list, 2
    {
      var xs := list.items;
      var nodes: seq<HarNode> := [];
      for i := 0 to |xs|
        invariant |nodes| == i
        invariant forall j :: 0 <= j < i ==> Accepts(env, cls, xs[j])
        invariant forall j :: 0 <= j < i ==> nodes[j].cls == cls && Dict(nodes[j].json) == xs[j]
        invariant forall j :: 0 <= j < i ==>
                    nodes[j].parent.None? && fresh(nodes[j].Repr) &&
                    nodes[j] in nodes[j].Repr && nodes[j].Built(env)
      {
        var b := BuildNext(env, cls, list, i, nodes);
        if b.Err? {
          return Err(b.error);
        }
        nodes := nodes + [b.value];
      }
      return Ok(nodes);
    }

    /** The class's `_validate`: the presence check, Log's version default,
        the type check of the class's table, and Entry's address check. */
    method Validate(env: Env) returns (o: Outcome)
      modifies this
      ensures o.Pass? <==> NodeValid(env, cls, json)
      ensures !AllPresent(json, Required(cls)) ==>
                o.Fail? && o.error.MissingValue? && o.error.inClass == ClassName(cls) &&
                FirstMissingIs(json, Required(cls), o.error.field)
      ensures AllPresent(json, Required(cls)) && !SchemaHolds(json, FieldDefs(cls, json)) ==>
                exists f :: f in FieldDefs(cls, json) && !Conforms(json, f, FieldDefs(cls, json)[f]) &&
                  o == Fail(ValidationError(TypeFailure(json, f, ClassName(cls))))
      ensures AllPresent(json, Required(cls)) && SchemaHolds(json, FieldDefs(cls, json)) &&
              cls.Entry? && "serverIPAddress" in json && !IPAccepted(env, json["serverIPAddress"]) ==>
                json["serverIPAddress"].IsText() &&
                o == Fail(ValidationError(BadIPAddress(json["serverIPAddress"].s)))
      ensures o.Fail? ==> ValidationRefusal(env, cls, json, o.error)
      ensures attrs == if GetsDefaultVersion(cls, json)
                       then old(attrs)["version" := Plain(Str(DefaultVersion))]
                       else old(attrs)
      ensures Repr == old(Repr)
    {
      o := HasFields(json, Required(cls), ClassName(cls));
      if o.Fail? {
        return;
      }
      if cls.Log? {
        assert Required(Log)[0] == "version";
        if VersionIsEmpty(json["version"]) {
          attrs := attrs["version" := Plain(Str(DefaultVersion))];
        }
      }
      o := CheckFieldTypes(json, FieldDefs(cls, json), ClassName(cls));
      if o.Fail? {
        return;
      }
      if cls.Entry? && "serverIPAddress" in json {
        assert "serverIPAddress" in FieldDefs(cls, json);
        if !IPAccepted(env, json["serverIPAddress"]) {
          return Fail(ValidationError(BadIPAddress(json["serverIPAddress"].s)));
        }
      }
    }

    /** The class's `_construct`: turn the nested fragments into child nodes,
        each completely built by its own construction. The children get no
        parent. Classes without their own `_construct` keep MetaHar's, which
        does nothing. */
    method Construct(env: Env) returns (o: Outcome)
      requires NodeValid(env, cls, json)
      requires KidsBuilt(env)
      modifies this
      ensures o.Pass? <==> ChildrenAccepted(env, cls, Dict(json))
      ensures o.Fail? ==> ChildRefusal(env, cls, Dict(json), o.error)
      ensures o.Pass? ==> attrs.Keys == old(attrs).Keys + ConstructedKeys(cls, json)
      ensures o.Pass? ==> forall k :: k in old(attrs) && k !in ConstructedKeys(cls, json) ==>
                            attrs[k] == old(attrs)[k]
      ensures o.Pass? ==> Materialised(env, cls, json, attrs)
      ensures o.Pass? ==> KidsBuilt(env) && fresh(Repr - old(Repr))
      decreases Dict(json), 3
    {
      match cls
      case Log =>
        LogRule(env, json);
        o := ConstructLog(env);
      case Page =>
        PageRule(env, json);
        o := ConstructPage(env);
      case Entry =>
        EntryRule(env, json);
        o := ConstructEntry(env);
      case _ =>
        o := Pass;
    }

    /** `self.k = C(self.k)`: replace one field by a child node of class `c`
        built from it; the node is handed back too. */
    method SetChild(env: Env, key: string, c: HarClass) returns (r: Result<HarNode>)
      requires key in json
      requires KidsBuilt(env)
      modifies this
      ensures r.Ok? <==> Accepts(env, c, json[key])
      ensures r.Err? ==> Refusal(env, c, json[key], r.error)
      ensures r.Ok? ==> IsNodeFor(Child(r.value), c, json[key]) &&
                        attrs == old(attrs)[key := Child(r.value)]
      ensures r.Ok? ==> KidsBuilt(env) && old(Repr) <= Repr && fresh(Repr - old(Repr))
      decreases Dict(json), 0
    {
      r := BuildChild(env, c, json[key]);
      if r.Ok? {
        HoldsAfterSet(env, this, attrs, Repr, key, Child(r.value), Repr + r.value.Repr);
        attrs := attrs[key := Child(r.value)];
        Repr := Repr + r.value.Repr;
      }
    }

    /** `self.k = [C(x) for x in self.k]`: replace a list field by the child
        nodes of class `c` built from its elements; they are handed back too. */
    method SetChildren(env: Env, key: string, c: HarClass) returns (r: Result<seq<HarNode>>)
      requires key in json && json[key].List?
      requires KidsBuilt(env)
      modifies this
      ensures r.Ok? <==> forall i :: 0 <= i < |json[key].items| ==> Accepts(env, c, json[key].items[i])
      ensures r.Err? ==> ListRefusal(env, c, json[key], r.error)
      ensures r.Ok? ==> AreNodesFor(Children(r.value), c, json[key]) &&
                        attrs == old(attrs)[key := Children(r.value)]
      ensures r.Ok? ==> KidsBuilt(env) && old(Repr) <= Repr && fresh(Repr - old(Repr))
      decreases Dict(json), 0
    {
      r := BuildAll(env, c, json[key]);
      if r.Ok? {
        ghost var below := NodesRepr(r.value);
        NodesBelow(env, this, r.value, Repr);
        assert fresh(below);
        HoldsAfterSet(env, this, attrs, Repr, key, Children(r.value), Repr + below);
        attrs := attrs[key := Children(r.value)];
        Repr := Repr + below;
      }
    }

    /** `if "k" in self: self.k = C(self.k)`: `SetChild` for an optional
        field; nothing changes when the field is absent. */
    method SetChildIfPresent(env: Env, key: string, c: HarClass) returns (r: Result<Option<HarNode>>)
      requires KidsBuilt(env)
      modifies this
      ensures r.Ok? <==> (key in json ==> Accepts(env, c, json[key]))
      ensures r.Err? ==> key in json && Refusal(env, c, json[key], r.error)
      ensures r.Ok? ==> (r.value.Some? <==> key in json)
      ensures r.Ok? && r.value.Some? ==>
                key in json && IsNodeFor(Child(r.value.value), c, json[key]) &&
                attrs == old(attrs)[key := Child(r.value.value)]
      ensures r.Ok? && r.value.None? ==> attrs == old(attrs)
      ensures r.Ok? ==> KidsBuilt(env) && old(Repr) <= Repr && fresh(Repr - old(Repr))
      decreases Dict(json), 1
    {
      if key !in json {
        return Ok(None);
      }
      var b := SetChild(env, key, c);
      if b.Err? {
        return Err(b.error);
      }
      return Ok(Some(b.value));
    }

    /** `if "k" in self: self.k = [C(x) for x in self.k]`: `SetChildren` for
        an optional field; nothing changes when the field is absent. */
    method SetChildrenIfPresent(env: Env, key: string, c: HarClass) returns (r: Result<Option<seq<HarNode>>>)
      requires key in json ==> json[key].List?
      requires KidsBuilt(env)
      modifies this
      ensures r.Ok? <==> (key in json ==> forall i :: 0 <= i < |json[key].items| ==> Accepts(env, c, json[key].items[i]))
      ensures r.Err? ==> key in json && ListRefusal(env, c, json[key], r.error)
      ensures r.Ok? ==> (r.value.Some? <==> key in json)
      ensures r.Ok? && r.value.Some? ==>
                key in json && AreNodesFor(Children(r.value.value), c, json[key]) &&
                attrs == old(attrs)[key := Children(r.value.value)]
      ensures r.Ok? && r.value.None? ==> attrs == old(attrs)
      ensures r.Ok? ==> KidsBuilt(env) && old(Repr) <= Repr && fresh(Repr - old(Repr))
      decreases Dict(json), 1
    {
      if key !in json {
        return Ok(None);
      }
      var p := SetChildren(env, key, c);
      if p.Err? {
        return Err(p.error);
      }
      return Ok(Some(p.value));
    }

    /** `Log._construct`: the creator, the browser and the pages when
        present, and the entries, in that order. */
    method ConstructLog(env: Env) returns (o: Outcome)
      requires cls.Log? && "creator" in json && "entries" in json && json["entries"].List?
      requires "pages" in json ==> json["pages"].List?
      requires KidsBuilt(env)
      modifies this
      ensures o.Pass? <==> ChildrenAccepted(env, cls, Dict(json))
      ensures o.Fail? ==> ChildRefusal(env, cls, Dict(json), o.error)
      ensures o.Pass? ==> attrs.Keys == old(attrs).Keys + ConstructedKeys(cls, json)
      ensures o.Pass? ==> forall k :: k in old(attrs) && k !in ConstructedKeys(cls, json) ==>
                            attrs[k] == old(attrs)[k]
      ensures o.Pass? ==> Materialised(env, cls, json, attrs)
      ensures o.Pass? ==> KidsBuilt(env) && fresh(Repr - old(Repr))
      decreases Dict(json), 2
    {
      ghost var a0, r0 := attrs, Repr;
      var creator := SetChild(env, "creator", Creator);
      if creator.Err? {
        return Fail(creator.error);
      }
      assert fresh(Repr - r0);
      ghost var a1 := attrs;
      var browser := SetChildIfPresent(env, "browser", Browser);
      if browser.Err? {
        return Fail(browser.error);
      }
      assert fresh(Repr - r0);
      ghost var a2 := attrs;
      var pages := SetChildrenIfPresent(env, "pages", Page);
      if pages.Err? {
        return Fail(pages.error);
      }
      assert fresh(Repr - r0);
      ghost var a3 := attrs;
      var entries := SetChildren(env, "entries", Entry);
      if entries.Err? {
        return Fail(entries.error);
      }
      assert fresh(Repr - r0);
      LogAttrs(env, json, a0, a1, a2, a3, attrs, creator.value, browser.value, pages.value, entries.value);
      return Pass;
    }

    /** `Page._construct`: parse the start time (a failure is a
        ValidationError), then build the page timings. */
    method ConstructPage(env: Env) returns (o: Outcome)
      requires cls.Page? && "startedDateTime" in json && json["startedDateTime"].IsText()
      requires "pageTimings" in json
      requires KidsBuilt(env)
      modifies this
      ensures o.Pass? <==> ChildrenAccepted(env, cls, Dict(json))
      ensures o.Fail? ==> ChildRefusal(env, cls, Dict(json), o.error)
      ensures o.Pass? ==> attrs.Keys == old(attrs).Keys + ConstructedKeys(cls, json)
      ensures o.Pass? ==> forall k :: k in old(attrs) && k !in ConstructedKeys(cls, json) ==>
                            attrs[k] == old(attrs)[k]
      ensures o.Pass? ==> Materialised(env, cls, json, attrs)
      ensures o.Pass? ==> KidsBuilt(env) && fresh(Repr - old(Repr))
      ensures "startedDateTime" in json && json["startedDateTime"].IsText() &&
              env.parseDate(json["startedDateTime"].s).None? ==>
                o == Fail(ValidationError(BadDate(json["startedDateTime"].s)))
      decreases Dict(json), 2
    {
      ghost var a0, r0 := attrs, Repr;
      var started := env.parseDate(json["startedDateTime"].s);
      if started.None? {
        return Fail(ValidationError(BadDate(json["startedDateTime"].s)));
      }
      attrs := attrs["startedDateTime" := Plain(Date(started.value))];
      var timings := SetChild(env, "pageTimings", PageTimings);
      if timings.Err? {
        return Fail(timings.error);
      }
      assert fresh(Repr - r0);
      PageAttrs(env, json, a0, started.value, timings.value);
      return Pass;
    }

    /** `Entry._construct`: request, response, cache and timings, in that order. */
    method ConstructEntry(env: Env) returns (o: Outcome)
      requires cls.Entry? && "request" in json && "response" in json && "cache" in json && "timings" in json
      requires KidsBuilt(env)
      modifies this
      ensures o.Pass? <==> ChildrenAccepted(env, cls, Dict(json))
      ensures o.Fail? ==> ChildRefusal(env, cls, Dict(json), o.error)
      ensures o.Pass? ==> attrs.Keys == old(attrs).Keys + ConstructedKeys(cls, json)
      ensures o.Pass? ==> forall k :: k in old(attrs) && k !in ConstructedKeys(cls, json) ==>
                            attrs[k] == old(attrs)[k]
      ensures o.Pass? ==> Materialised(env, cls, json, attrs)
      ensures o.Pass? ==> KidsBuilt(env) && fresh(Repr - old(Repr))
      decreases Dict(json), 2
    {
      ghost var a0, r0 := attrs, Repr;
      var request := SetChild(env, "request", Request);
      if request.Err? {
        return Fail(request.error);
      }
      assert fresh(Repr - r0);
      var response := SetChild(env, "response", Response);
      if response.Err? {
        return Fail(response.error);
      }
      assert fresh(Repr - r0);
      var cache := SetChild(env, "cache", Cache);
      if cache.Err? {
        return Fail(cache.error);
      }
      assert fresh(Repr - r0);
      var timings := SetChild(env, "timings", Timings);
      if timings.Err? {
        return Fail(timings.error);
      }
      assert fresh(Repr - r0);
      EntryAttrs(env, json, a0, request.value, response.value, cache.value, timings.value);
      return Pass;
    }
  }
  /** The nodes a built node holds are built too, and have no parent. */
  lemma KidsOfBuilt(env: Env, n: HarNode, k: string)
    requires n.Built(env) && k in n.attrs
    ensures n.attrs[k].Child? ==> n.attrs[k].node.parent.None? && n.attrs[k].node.Built(env)
    ensures n.attrs[k].Children? ==>
              forall i :: 0 <= i < |n.attrs[k].nodes| ==>
                n.attrs[k].nodes[i].parent.None? && n.attrs[k].nodes[i].Built(env)
  {
    assert n.KidsBuilt(env);
    assert Holds(env, n, n.attrs, n.Repr);
    if n.attrs[k].Child? {
      assert Below(env, n, n.attrs[k].node, n.Repr);
    }
    if n.attrs[k].Children? {
      forall i | 0 <= i < |n.attrs[k].nodes|
        ensures n.attrs[k].nodes[i].parent.None? && n.attrs[k].nodes[i].Built(env)
      {
        assert Below(env, n, n.attrs[k].nodes[i], n.Repr);
      }
    }
  }

  /** A built node of any class other than Log, Page and Entry holds no
      attributes: every field reads through to the dict. (Request's
      `_construct`, which would turn postData into a node, is not part of
      this model.) */
  lemma LeafOfBuilt(env: Env, n: HarNode)
    requires n.Built(env) && !(n.cls.Log? || n.cls.Page? || n.cls.Entry?)
    ensures n.attrs == map[]
  {
    assert n.attrs.Keys == {};
  }

  /** Three levels down a built Log: each entry is a built Entry whose
      request attribute is a Request node built from the entry's request
      field, and that node holds no attributes of its own. */
  lemma EntriesOfBuiltLog(env: Env, log: HarNode, i: int)
    requires log.Built(env) && log.cls.Log?
    ensures "entries" in log.attrs && "entries" in log.json &&
            AreNodesFor(log.attrs["entries"], Entry, log.json["entries"])
    ensures 0 <= i < |log.attrs["entries"].nodes| ==>
              var e := log.attrs["entries"].nodes[i];
              e.parent.None? && e.Built(env) &&
              "request" in e.attrs && "request" in e.json &&
              IsNodeFor(e.attrs["request"], Request, e.json["request"]) &&
              e.attrs["request"].node.attrs == map[]
  {
    KidsOfBuilt(env, log, "entries");
    if 0 <= i < |log.attrs["entries"].nodes| {
      var e := log.attrs["entries"].nodes[i];
      assert e.cls == Entry;
      KidsOfBuilt(env, e, "request");
      LeafOfBuilt(env, e.attrs["request"].node);
    }
  }
}
