/** The per-class rules of har.py: which fields each HAR node requires,
    which it type-checks (some only when present), the Log version default,
    the server address check, and which fields become child nodes.

    har.py's own type checker, `_fields_of_type`, cannot run as written: it
    is declared with `**field_defs` but called with one positional dict, and
    it iterates keys only. Its tables are checked here with the algorithm of
    _internal.py's `_check_field_types` (`Validation.CheckFieldTypes`). The
    other name errors of har.py (Creator's `__fields_of_type`, Page's
    `field_types`, Request's `Postdata`) are read as the names they evidently
    mean, except `Postdata`: no PostData class exists, so `postData` is left
    as it was decoded. */
module HarSchema {
  import opened Errors
  import opened PyValues
  import opened Validation
  import Encoder

  datatype HarClass =
    | Log | Creator | Browser | Page | PageTimings | Entry | Request | Response
    | Cookie | Header | QueryString | Param | Content | Cache | Timings

  function ClassName(c: HarClass): string {
    match c
    case Log => "Log"
    case Creator => "Creator"
    case Browser => "Browser"
    case Page => "Page"
    case PageTimings => "PageTimings"
    case Entry => "Entry"
    case Request => "Request"
    case Response => "Response"
    case Cookie => "Cookie"
    case Header => "Header"
    case QueryString => "QueryString"
    case Param => "Param"
    case Content => "Content"
    case Cache => "Cache"
    case Timings => "Timings"
  }

  /** The classes that keep MetaHar's default `_validate`. */
  predicate UsesDefaultRule(c: HarClass) {
    c.Cookie? || c.Header? || c.QueryString? || c.Param? || c.Cache?
  }

  /** The arguments of each class's `_has_fields` call, in order. */
  function Required(c: HarClass): seq<string> {
    match c
    case Log => ["version", "creator", "entries"]
    case Creator => ["name", "version"]
    case Browser => ["name", "version"]
    case Page => ["startedDateTime", "id", "title", "pageTimings"]
    case PageTimings => []
    case Entry => ["startedDateTime", "request", "response", "cache", "timings"]
    case Request => ["method", "url", "httpVersion", "queryString", "headersSize", "bodySize"]
    case Response => ["status", "statusText", "httpVersion", "cookies", "headers", "content",
                      "redirectURL", "headersSize", "bodySize"]
    case Content => ["size", "mimeType"]
    case Timings => ["send", "wait", "recieve"]
    case _ => ["name", "value"]
  }

  /** Conditional insertion: `if field in self: field_defs[field] = spec`. */
  function Optional(s: Schema, present: map<string, Value>, field: string, spec: TypeSpec): Schema {
    if field in present then s[field := spec] else s
  }

  /** The `field_defs` table each class's `_validate` builds for the node's
      `_json`. */
  function FieldDefs(c: HarClass, json: map<string, Value>): Schema {
    match c
    case Log =>
      Optional(Optional(map["version" := Text, "entries" := Exact(TList)],
                        json, "pages", Exact(TList)),
               json, "comment", Text)
    case Creator => Optional(map["name" := Text, "version" := Text], json, "comment", Text)
    case Browser => Optional(map["name" := Text, "version" := Text], json, "comment", Text)
    case Page =>
      Optional(map["startedDateTime" := Text, "id" := Text, "title" := Text], json, "comment", Text)
    case PageTimings =>
      Optional(Optional(Optional(map[], json, "onContentLoad", Exact(TInt)),
                        json, "onLoad", Exact(TInt)),
               json, "comment", Text)
    case Entry =>
      Optional(Optional(Optional(map["startedDateTime" := Text],
                                 json, "pageref", Text),
                        json, "serverIPAddress", Text),
               json, "connection", Text)
    case Request =>
      Optional(map["method" := Text, "url" := Text, "httpVersion" := Text,
                   "headersSize" := Exact(TInt), "bodySize" := Exact(TInt)],
               json, "comment", Text)
    case Response =>
      Optional(map["status" := Exact(TInt), "statusText" := Text, "httpVersion" := Text,
                   "cookies" := Exact(TList), "headers" := Exact(TList), "redirectURL" := Text,
                   "headersSize" := Exact(TInt), "bodySize" := Exact(TInt)],
               json, "comment", Text)
    case Content => map["size" := Exact(TInt), "mimeType" := Text]
    case Timings => map["send" := Exact(TInt), "wait" := Exact(TInt), "recieve" := Exact(TInt)]
    case _ => Optional(map["name" := Text, "value" := Text], json, "comment", Text)
  }

  /** What the node layer needs from outside: the platform's address
      literal grammars (`inet_pton`) and the date parser (dateutil). */
  datatype Env = Env(isIPv6Literal: string -> bool,
                     isIPv4Literal: string -> bool,
                     parseDate: string -> Option<DateTime>)

  /** The version a Log reads when its stored version is empty. */
  const DefaultVersion: string := "1.1"

  /** `self.version is ''` as written: only a byte string is the empty-string
      singleton, so an empty unicode version (what the JSON decoder gives) is
      not caught. */
  predicate VersionIsEmptyAsWritten(v: Value) {
    v == Str("")
  }

  /** The evident intent: any empty text. */
  predicate VersionIsEmpty(v: Value) {
    v.IsText() && v.s == ""
  }

  /** A Log decoded from JSON with version "" keeps "" as written, while
      the intended check gives it the default. */
  lemma DecodedEmptyVersionMissed(zone: TimeZone, iso: DateTime -> string)
    ensures Encoder.Reload(Str(""), zone, iso) == Some(Unicode(""))
    ensures !VersionIsEmptyAsWritten(Unicode(""))
    ensures VersionIsEmpty(Unicode("")) && VersionIsEmpty(Str(""))
  {
  }

  /** Log's `_validate` gives the node a version attribute of its own:
      after the presence check, when the stored version is empty. */
  predicate GetsDefaultVersion(c: HarClass, json: map<string, Value>) {
    c.Log? && AllPresent(json, Required(c)) && "version" in json && VersionIsEmpty(json["version"])
  }

  predicate IPAccepted(env: Env, v: Value) {
    v.IsText() && (env.isIPv6Literal(v.s) || env.isIPv4Literal(v.s))
  }

  /** Everything one node's `_validate` demands of its `_json`. */
  predicate NodeValid(env: Env, c: HarClass, json: map<string, Value>) {
    AllPresent(json, Required(c)) &&
    SchemaHolds(json, FieldDefs(c, json)) &&
    (c.Entry? && "serverIPAddress" in json ==> IPAccepted(env, json["serverIPAddress"]))
  }

  /** Whether a HAR node of class `c` can be built from `v`: `v` is a dict,
      the node validates, and every child `_construct` builds validates in
      turn. */
  predicate Accepts(env: Env, c: HarClass, v: Value)
    decreases v, 1
  {
    v.Dict? && NodeValid(env, c, v.m) && ChildrenAccepted(env, c, v)
  }

  /** Every element of a list is accepted. */
  predicate AllAccepted(env: Env, c: HarClass, list: Value)
    requires list.List?
  {
    forall i :: 0 <= i < |list.items| ==> Accepts(env, c, list.items[i])
  }

  /** What `_construct` demands: each nested fragment it turns into a node
      must be accepted, and Page's start time must parse. */
  predicate ChildrenAccepted(env: Env, c: HarClass, v: Value)
    requires v.Dict?
    decreases v, 0
  {
    var m := v.m;
    match c
    case Log =>
      "creator" in m && Accepts(env, Creator, m["creator"]) &&
      ("browser" in m ==> Accepts(env, Browser, m["browser"])) &&
      ("pages" in m ==>
         m["pages"].List? &&
         forall i :: 0 <= i < |m["pages"].items| ==> Accepts(env, Page, m["pages"].items[i])) &&
      "entries" in m && m["entries"].List? &&
      forall i :: 0 <= i < |m["entries"].items| ==> Accepts(env, Entry, m["entries"].items[i])
    case Page =>
      "startedDateTime" in m && m["startedDateTime"].IsText() &&
      env.parseDate(m["startedDateTime"].s).Some? &&
      "pageTimings" in m && Accepts(env, PageTimings, m["pageTimings"])
    case Entry =>
      "request" in m && Accepts(env, Request, m["request"]) &&
      "response" in m && Accepts(env, Response, m["response"]) &&
      "cache" in m && Accepts(env, Cache, m["cache"]) &&
      "timings" in m && Accepts(env, Timings, m["timings"])
    case _ => true
  }

  /** The error `_validate` raises, when it raises: the first absent
      required field, else some field of the table with a wrong type (the
      dict's order decides which), else Entry's server address. */
  ghost predicate ValidationRefusal(env: Env, c: HarClass, json: map<string, Value>, e: Error) {
    if !AllPresent(json, Required(c)) then
      e.MissingValue? && e.inClass == ClassName(c) && FirstMissingIs(json, Required(c), e.field)
    else if !SchemaHolds(json, FieldDefs(c, json)) then
      exists f :: f in FieldDefs(c, json) && !Conforms(json, f, FieldDefs(c, json)[f]) &&
        e == ValidationError(TypeFailure(json, f, ClassName(c)))
    else
      c.Entry? && "serverIPAddress" in json && !IPAccepted(env, json["serverIPAddress"]) &&
      json["serverIPAddress"].IsText() && e == ValidationError(BadIPAddress(json["serverIPAddress"].s))
  }

  /** The error that reaches the caller of `C(v)` when the tree is refused:
      the assertion on a non-dict, else the node's own validation error,
      else the error of its construction. */
  ghost predicate Refusal(env: Env, c: HarClass, v: Value, e: Error)
    decreases v, 3
  {
    if !v.Dict? then e == AssertionError(NotADict) else NodeRefusal(env, c, v, e)
  }

  /** The error `__init__` raises on a dict: `_validate`'s, else `_construct`'s. */
  ghost predicate NodeRefusal(env: Env, c: HarClass, v: Value, e: Error)
    requires v.Dict?
    decreases v, 2
  {
    if !NodeValid(env, c, v.m) then ValidationRefusal(env, c, v.m, e)
    else ChildRefusal(env, c, v, e)
  }

  /** The error `_construct` raises, when it raises: that of the first child,
      in the order the statements build them, that is refused. */
  ghost predicate ChildRefusal(env: Env, c: HarClass, v: Value, e: Error)
    requires v.Dict?
    decreases v, 1
  {
    var m := v.m;
    match c
    case Log =>
      "creator" in m &&
      if !Accepts(env, Creator, m["creator"]) then Refusal(env, Creator, m["creator"], e)
      else if "browser" in m && !Accepts(env, Browser, m["browser"]) then Refusal(env, Browser, m["browser"], e)
      else if "pages" in m && m["pages"].List? && !AllAccepted(env, Page, m["pages"]) then
        ListRefusal(env, Page, m["pages"], e)
      else "entries" in m && m["entries"].List? && ListRefusal(env, Entry, m["entries"], e)
    case Page =>
      "startedDateTime" in m && m["startedDateTime"].IsText() &&
      if env.parseDate(m["startedDateTime"].s).None? then
        e == ValidationError(BadDate(m["startedDateTime"].s))
      else "pageTimings" in m && Refusal(env, PageTimings, m["pageTimings"], e)
    case Entry =>
      "request" in m && "response" in m && "cache" in m && "timings" in m &&
      if !Accepts(env, Request, m["request"]) then Refusal(env, Request, m["request"], e)
      else if !Accepts(env, Response, m["response"]) then Refusal(env, Response, m["response"], e)
      else if !Accepts(env, Cache, m["cache"]) then Refusal(env, Cache, m["cache"], e)
      else Refusal(env, Timings, m["timings"], e)
    case _ => false
  }

  /** The error a list comprehension `[C(x) for x in xs]` passes on: that of
      the first element refused. */
  ghost predicate ListRefusal(env: Env, c: HarClass, list: Value, e: Error)
    requires list.List?
    decreases list, 0
  {
    exists i :: 0 <= i < |list.items| && (forall j :: 0 <= j < i ==> Accepts(env, c, list.items[j])) &&
      Refusal(env, c, list.items[i], e)
  }

  /** A Log built from an empty dict is reported as missing its version,
      the first of its required fields. */
  lemma EmptyLogMissesVersion(f: string)
    ensures FirstMissingIs(map[], Required(Log), f) <==> f == "version"
  {
    var req: seq<string> := Required(Log);
    var empty: map<string, Value> := map[];
    assert req[0] == "version" && req[0] !in empty;
    if FirstMissingIs(empty, req, f) {
      var i :| 0 <= i < |req| && req[i] == f && f !in empty &&
               forall j :: 0 <= j < i ==> req[j] in empty;
      assert i == 0;
    }
  }

  /** A reported refusal is one: the tree it is reported for is not accepted. */
  lemma {:induction false} RefusalRefuses(env: Env, c: HarClass, v: Value, e: Error)
    requires Refusal(env, c, v, e)
    ensures !Accepts(env, c, v)
    decreases v, 1
  {
    if v.Dict? && NodeValid(env, c, v.m) {
      ChildRefusalRefuses(env, c, v, e);
    }
  }

  /** A reported construction error leaves some child refused. */
  lemma {:induction false} ChildRefusalRefuses(env: Env, c: HarClass, v: Value, e: Error)
    requires v.Dict? && ChildRefusal(env, c, v, e)
    ensures !ChildrenAccepted(env, c, v)
    decreases v, 0
  {
    var m := v.m;
    match c
    case Log =>
      if Accepts(env, Creator, m["creator"]) && !("browser" in m && !Accepts(env, Browser, m["browser"])) &&
         !("pages" in m && m["pages"].List? && !AllAccepted(env, Page, m["pages"])) {
        var i :| 0 <= i < |m["entries"].items| &&
                 (forall j :: 0 <= j < i ==> Accepts(env, Entry, m["entries"].items[j])) &&
                 Refusal(env, Entry, m["entries"].items[i], e);
        RefusalRefuses(env, Entry, m["entries"].items[i], e);
      } else if Accepts(env, Creator, m["creator"]) && !("browser" in m && !Accepts(env, Browser, m["browser"])) {
        var i :| 0 <= i < |m["pages"].items| &&
                 (forall j :: 0 <= j < i ==> Accepts(env, Page, m["pages"].items[j])) &&
                 Refusal(env, Page, m["pages"].items[i], e);
        RefusalRefuses(env, Page, m["pages"].items[i], e);
      }
    case Page =>
      if env.parseDate(m["startedDateTime"].s).Some? {
        RefusalRefuses(env, PageTimings, m["pageTimings"], e);
      }
    case Entry =>
      if Accepts(env, Request, m["request"]) && Accepts(env, Response, m["response"]) &&
         Accepts(env, Cache, m["cache"]) {
        RefusalRefuses(env, Timings, m["timings"], e);
      }
    case _ =>
  }

  /** An Entry that validates but whose request is `{"method": "GET"}`
      fails with the request's own error: MissingValue for url in Request,
      the first of Request's required fields that is absent. */
  lemma EntryReportsRequestsMissingUrl(env: Env, m: map<string, Value>, e: Error)
    requires NodeValid(env, Entry, m)
    requires "request" in m && m["request"] == Dict(map["method" := Str("GET")])
    ensures Refusal(env, Entry, Dict(m), e) <==> e == MissingValue("url", "Request")
  {
    var req: seq<string> := Required(Request);
    var rm: map<string, Value> := map["method" := Str("GET")];
    assert req[0] == "method" && req[0] in rm && req[1] == "url" && req[1] !in rm;
    var ent := Required(Entry);
    assert ent[1] == "request" && ent[2] == "response" && ent[3] == "cache" && ent[4] == "timings";
    assert !AllPresent(rm, req);
    assert !Accepts(env, Request, m["request"]);
    assert Refusal(env, Entry, Dict(m), e) <==> ChildRefusal(env, Entry, Dict(m), e);
    assert ChildRefusal(env, Entry, Dict(m), e) <==> Refusal(env, Request, m["request"], e);
    assert Refusal(env, Request, m["request"], e) <==> ValidationRefusal(env, Request, rm, e);
    assert FirstMissingIs(rm, req, "url");
    forall f | FirstMissingIs(rm, req, f) ensures f == "url" {
      var i :| 0 <= i < |req| && req[i] == f && f !in rm && forall j :: 0 <= j < i ==> req[j] in rm;
      assert i == 1;
    }
  }

  /** Log: version, creator and entries are required; version is text,
      entries a list, and pages (a list) and comment (text) are checked only
      when present. The creator is not type-checked here. */
  lemma LogRule(env: Env, json: map<string, Value>)
    ensures NodeValid(env, Log, json) <==>
      "version" in json && "creator" in json && "entries" in json &&
      json["version"].IsText() && json["entries"].List? &&
      ("pages" in json ==> json["pages"].List?) &&
      ("comment" in json ==> json["comment"].IsText())
  {
    var req, s := Required(Log), FieldDefs(Log, json);
    if NodeValid(env, Log, json) {
      assert req[0] == "version" && req[1] == "creator" && req[2] == "entries";
      assert "version" in s && "entries" in s;
      assert "pages" in json ==> "pages" in s;
      assert "comment" in json ==> "comment" in s;
    }
  }

  /** Request: six required fields; method, url and httpVersion text, the two
      sizes machine integers (a bool is refused); queryString only present. */
  lemma RequestRule(env: Env, json: map<string, Value>)
    ensures NodeValid(env, Request, json) <==>
      "method" in json && "url" in json && "httpVersion" in json &&
      "queryString" in json && "headersSize" in json && "bodySize" in json &&
      json["method"].IsText() && json["url"].IsText() && json["httpVersion"].IsText() &&
      json["headersSize"].Int? && IsMachineInt(json["headersSize"].i) &&
      json["bodySize"].Int? && IsMachineInt(json["bodySize"].i) &&
      ("comment" in json ==> json["comment"].IsText())
  {
    var req, s := Required(Request), FieldDefs(Request, json);
    if NodeValid(env, Request, json) {
      assert req[0] == "method" && req[1] == "url" && req[2] == "httpVersion";
      assert req[3] == "queryString" && req[4] == "headersSize" && req[5] == "bodySize";
      assert "method" in s && "url" in s && "httpVersion" in s && "headersSize" in s && "bodySize" in s;
      assert "comment" in json ==> "comment" in s;
    }
  }

  /** Response: nine required fields; status and the sizes machine integers,
      cookies and headers lists, the three texts text; content only present. */
  lemma ResponseRule(env: Env, json: map<string, Value>)
    ensures NodeValid(env, Response, json) <==>
      "status" in json && "statusText" in json && "httpVersion" in json &&
      "cookies" in json && "headers" in json && "content" in json &&
      "redirectURL" in json && "headersSize" in json && "bodySize" in json &&
      json["status"].Int? && IsMachineInt(json["status"].i) &&
      json["statusText"].IsText() && json["httpVersion"].IsText() &&
      json["cookies"].List? && json["headers"].List? && json["redirectURL"].IsText() &&
      json["headersSize"].Int? && IsMachineInt(json["headersSize"].i) &&
      json["bodySize"].Int? && IsMachineInt(json["bodySize"].i) &&
      ("comment" in json ==> json["comment"].IsText())
  {
    ResponsePresence(json);
    ResponseTypes(json);
  }

  lemma ResponsePresence(json: map<string, Value>)
    ensures AllPresent(json, Required(Response)) <==>
      "status" in json && "statusText" in json && "httpVersion" in json &&
      "cookies" in json && "headers" in json && "content" in json &&
      "redirectURL" in json && "headersSize" in json && "bodySize" in json
  {
    var req := Required(Response);
    if AllPresent(json, req) {
      assert req[0] == "status" && req[1] == "statusText" && req[2] == "httpVersion";
      assert req[3] == "cookies" && req[4] == "headers" && req[5] == "content";
      assert req[6] == "redirectURL" && req[7] == "headersSize" && req[8] == "bodySize";
    }
  }

  lemma ResponseTypes(json: map<string, Value>)
    ensures SchemaHolds(json, FieldDefs(Response, json)) <==>
      Conforms(json, "status", Exact(TInt)) && Conforms(json, "statusText", Text) &&
      Conforms(json, "httpVersion", Text) && Conforms(json, "cookies", Exact(TList)) &&
      Conforms(json, "headers", Exact(TList)) && Conforms(json, "redirectURL", Text) &&
      Conforms(json, "headersSize", Exact(TInt)) && Conforms(json, "bodySize", Exact(TInt)) &&
      ("comment" in json ==> Conforms(json, "comment", Text))
  {
    var s := FieldDefs(Response, json);
    if SchemaHolds(json, s) {
      assert "status" in s && "statusText" in s && "httpVersion" in s && "cookies" in s;
      assert "headers" in s && "redirectURL" in s && "headersSize" in s && "bodySize" in s;
      assert "comment" in json ==> "comment" in s;
    }
  }

  /** Cookie, Header, QueryString, Param and Cache: name and value are
      required text, comment is checked only when present. */
  lemma DefaultRule(env: Env, c: HarClass, json: map<string, Value>)
    requires UsesDefaultRule(c)
    ensures NodeValid(env, c, json) <==>
      "name" in json && "value" in json && json["name"].IsText() && json["value"].IsText() &&
      ("comment" in json ==> json["comment"].IsText())
  {
    var req, s := Required(c), FieldDefs(c, json);
    if NodeValid(env, c, json) {
      assert req[0] == "name" && req[1] == "value";
      assert "name" in s && "value" in s;
      assert "comment" in json ==> "comment" in s;
    }
  }

  /** Creator and Browser: name and version required text. */
  lemma CreatorRule(env: Env, c: HarClass, json: map<string, Value>)
    requires c.Creator? || c.Browser?
    ensures NodeValid(env, c, json) <==>
      "name" in json && "version" in json && json["name"].IsText() && json["version"].IsText() &&
      ("comment" in json ==> json["comment"].IsText())
  {
    var req, s := Required(c), FieldDefs(c, json);
    if NodeValid(env, c, json) {
      assert req[0] == "name" && req[1] == "version";
      assert "name" in s && "version" in s;
      assert "comment" in json ==> "comment" in s;
    }
  }

  /** Timings: send, wait and recieve (so spelled) required machine integers. */
  lemma TimingsRule(env: Env, json: map<string, Value>)
    ensures NodeValid(env, Timings, json) <==>
      "send" in json && json["send"].Int? && IsMachineInt(json["send"].i) &&
      "wait" in json && json["wait"].Int? && IsMachineInt(json["wait"].i) &&
      "recieve" in json && json["recieve"].Int? && IsMachineInt(json["recieve"].i)
  {
    var req, s := Required(Timings), FieldDefs(Timings, json);
    if NodeValid(env, Timings, json) {
      assert req[0] == "send" && req[1] == "wait" && req[2] == "recieve";
      assert "send" in s && "wait" in s && "recieve" in s;
    }
  }

  /** Content: size a machine integer and mimeType text, both required. */
  lemma ContentRule(env: Env, json: map<string, Value>)
    ensures NodeValid(env, Content, json) <==>
      "size" in json && "mimeType" in json &&
      json["size"].Int? && IsMachineInt(json["size"].i) && json["mimeType"].IsText()
  {
    var req, s := Required(Content), FieldDefs(Content, json);
    if NodeValid(env, Content, json) {
      assert req[0] == "size" && req[1] == "mimeType";
      assert "size" in s && "mimeType" in s;
    }
  }

  /** PageTimings requires nothing; onContentLoad and onLoad must be machine
      integers when present. */
  lemma PageTimingsRule(env: Env, json: map<string, Value>)
    ensures NodeValid(env, PageTimings, json) <==>
      ("onContentLoad" in json ==> json["onContentLoad"].Int? && IsMachineInt(json["onContentLoad"].i)) &&
      ("onLoad" in json ==> json["onLoad"].Int? && IsMachineInt(json["onLoad"].i)) &&
      ("comment" in json ==> json["comment"].IsText())
  {
    var s := FieldDefs(PageTimings, json);
    if NodeValid(env, PageTimings, json) {
      assert "onContentLoad" in json ==> "onContentLoad" in s;
      assert "onLoad" in json ==> "onLoad" in s;
      assert "comment" in json ==> "comment" in s;
    }
  }

  /** Page: start time, id and title required text, pageTimings only present. */
  lemma PageRule(env: Env, json: map<string, Value>)
    ensures NodeValid(env, Page, json) <==>
      "startedDateTime" in json && "id" in json && "title" in json && "pageTimings" in json &&
      json["startedDateTime"].IsText() && json["id"].IsText() && json["title"].IsText() &&
      ("comment" in json ==> json["comment"].IsText())
  {
    var req, s := Required(Page), FieldDefs(Page, json);
    if NodeValid(env, Page, json) {
      assert req[0] == "startedDateTime" && req[1] == "id" && req[2] == "title" && req[3] == "pageTimings";
      assert "startedDateTime" in s && "id" in s && "title" in s;
      assert "comment" in json ==> "comment" in s;
    }
  }

  /** Entry: five required fields; startedDateTime text; pageref,
      serverIPAddress and connection text when present; a server address
      that is neither an IPv6 nor an IPv4 literal is refused. */
  lemma EntryRule(env: Env, json: map<string, Value>)
    ensures NodeValid(env, Entry, json) <==>
      "startedDateTime" in json && "request" in json && "response" in json &&
      "cache" in json && "timings" in json &&
      json["startedDateTime"].IsText() &&
      ("pageref" in json ==> json["pageref"].IsText()) &&
      ("connection" in json ==> json["connection"].IsText()) &&
      ("serverIPAddress" in json ==>
         json["serverIPAddress"].IsText() &&
         (env.isIPv6Literal(json["serverIPAddress"].s) || env.isIPv4Literal(json["serverIPAddress"].s)))
  {
    var req, s := Required(Entry), FieldDefs(Entry, json);
    if NodeValid(env, Entry, json) {
      assert req[0] == "startedDateTime" && req[1] == "request" && req[2] == "response";
      assert req[3] == "cache" && req[4] == "timings";
      assert "startedDateTime" in s;
      assert "pageref" in json ==> "pageref" in s;
      assert "serverIPAddress" in json ==> "serverIPAddress" in s;
      assert "connection" in json ==> "connection" in s;
    }
  }
}
