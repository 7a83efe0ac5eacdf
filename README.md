# HAR node layer of Harpy, in Dafny

This project models the part of Harpy that turns an HTTP Archive (HAR)
document into a tree of validated nodes. Harpy is written in Python 2. The
model has two halves.

- `har.py`: the node classes Log, Creator, Browser, Page, PageTimings,
  Entry, Request, Response, Cookie, Header, QueryString, Param, Content,
  Cache and Timings. A node is built from a dict. It stores the dict
  (`_json`), runs the class's `_validate` and then its `_construct`, which
  turns nested fragments into child nodes.
- `_internal.py`: the generic node `_MetaHar` and `_KeyValueHar`. It keeps
  its fields in `__dict__`, next to a non-owning `_parent` link. This half
  also has the field checks, the printable-children view, `replace`, and
  the JSON encoder that drops `_parent` and localises naive timestamps.

Files:

| file | module | contents |
|---|---|---|
| errors.dfy | `Errors` | the exceptions, as `Error` values carried by `Outcome`/`Result` |
| values.dfy | `PyValues` | Python values; `type(x)` versus `isinstance`; truthiness |
| validation.dfy | `Validation` | `_has_fields`, `_check_field_types`, `_check_empty` as loops |
| encoder.dfy | `Encoder` | `_localize_datetime`, `HarEncoder.default`, the JSON round trip |
| internal.dfy | `Internal` | `_MetaHar` as a class over its `__dict__` map |
| har_schema.dfy | `HarSchema` | har.py's per-class tables and the tree-acceptance predicate `Accepts` |
| har.dfy | `Har` | har.py's `MetaHar` as a class; validation and construction |

Python points the model keeps:

- The type check compares exact types. A bool is not an int there.
- An integer outside the 64-bit range is a `long`, so it is not an `int`.
- `isinstance` in the printable view counts a bool as an int.
- `_MetaHar.__init__` (_internal.py) tests its input for truth, so an empty
  dict is treated there as "no input". har.py's `MetaHar.__init__` has no
  such test and validates `{}` like any other dict.
- Dict iteration order is unknown. When several fields fail the type check,
  the error names one of them, and the model does not say which.

har.py cannot run as written (see "Left out"). Its tables are therefore
checked with the algorithm of `_check_field_types` from _internal.py. Each
class keeps its own order of required fields and its own error messages.
Two points of har.py are easy to misread:

- The Log version default is `"1.1"` (har.py:157-158). It is not the `"1.2"`
  of the current HAR format.
- Entry `pageref` uniqueness is not checked. That check is commented out
  (har.py:274-278).

A built node is built all the way down. `Har.HarNode.Built` says the node
holds exactly its class's attributes, each child attribute a node built from
the matching fragment, and that each child is itself `Built`. The footprint
`Repr` keeps the children apart from their owner.

## Model

| member | source | states |
|---|---|---|
| PyValues.BoolIsIntOnlyForIsinstance | _internal.py:166-171 | a bool passes the `isinstance` int test of the printable view but never has exact type int |
| Validation.HasFields | har.py:131-134 | passes exactly when every listed field is present; otherwise a MissingValue error with the class name and the first absent field, in argument order |
| Validation.CheckFieldTypes | _internal.py:249-261 | passes exactly when every schema field is present with an accepted exact type; otherwise a ValidationError for some failing field (KeyError text when it is absent) |
| Validation.CheckEmpty | _internal.py:263-270 | passes exactly when every named field is present and truthy; the first present but falsy field gives ValidationError, and an absent one gives KeyError |
| Encoder.Localize | _internal.py:66-69 | the wall-clock time is kept; a naive timestamp gets the zone; an aware one is unchanged |
| Encoder.LocalizeIdempotent | _internal.py:66-69 | localising twice equals localising once, whatever zone the second call uses |
| Encoder.EncodeFields | _internal.py:82-84 | the encoded node has every field except `_parent`, each with its value |
| Encoder.Default | _internal.py:81-88 | a node becomes an object of its fields without `_parent`, each with its value; a timestamp becomes ISO text of an aware time with the same wall clock; anything else is not serialisable |
| Encoder.NaiveEncodesAsLocalZone | tests/test_har.py:41-47 | a naive timestamp encodes exactly like the same time given in the default zone |
| Encoder.Reload | _internal.py:229-233 | what `json.dumps` with the encoder then `json.loads` make of a value; none when the encoder refuses a part of it |
| Encoder.ReloadGivesJson | _internal.py:229-233 | whatever survives dumping and reloading is a plain JSON value |
| Encoder.JsonValueReloadsToItself | _internal.py:208-210 | a plain JSON value survives the round trip unchanged |
| Encoder.ReloadIdempotent | _internal.py:229-233 | a second round trip changes nothing |
| Internal.InputSchema | _internal.py:237-241 | the base type table is name and value as text, plus comment when present |
| Internal.MetaClassesNeverInstantiate | _internal.py:108-110 | neither meta class can be instantiated, whatever the arguments |
| Internal.NoInputSetsNoFields | _internal.py:111-127 | without truthy input the node holds only its parent link, with or without `empty` |
| Internal.DictInputIsMergedThenValidated | _internal.py:212-216 | a dict input is merged over the fields, its keys winning, and the node exists exactly when the merge validates |
| Internal.InitResult | _internal.py:102-127 | the `__dict__` `__init__` leaves: none for a meta class or a refused input type; `_parent` alone for falsy input; the decoded or given dict merged over `_parent` otherwise, when it validates |
| Internal.KeyValueChecksPresenceOnly | _internal.py:278-283 | for every field map, a key-value node accepts it exactly when name and value are present, of any type |
| Internal.PlainInputRule | _internal.py:235-242 | for every field map, a plain node accepts it exactly when name and value are present text and comment is text when present |
| Internal.HasFieldsAsWritten | _internal.py:244-247 | as written, a missing field raises NameError, and only when some listed field is absent |
| Internal.MissingNameRaisesNameError | _internal.py:247 | a node built from a dict without name and value fails with NameError rather than MissingValue, whichever order the two are checked in |
| Internal.PrintableNames | _internal.py:164-171 | exactly the fields other than `_parent` whose value is a node, list, text, dict or int (a bool included) |
| Internal.PrintableKids | _internal.py:159-171 | those names, or the `'(empty)'` marker exactly when there are none |
| Internal.Contains | _internal.py:139-140 | `in` on a node tests membership in its printable children, and on `'(empty)'` a substring test |
| Internal.ContainsOfPrintable | _internal.py:139-140 | with printable fields, `in` holds exactly for the printable field names |
| Internal.ContainsOfEmptyNode | _internal.py:139-140 | with none, `in` is a substring test on `'(empty)'`: "empty" is contained and a name longer than seven characters is not |
| Internal.IterFields | _internal.py:129-137 | the values `__iter__` yields, keyed by field, under its own filter: key not `_parent`, value a node, list, text, dict or int |
| Internal.IterMatchesKids | _internal.py:129-140 | `__iter__`'s filter and `_get_printable_kids`' filter pick the same fields, so iteration, `in` and the printable view agree for every field map |
| Internal.Get | _internal.py:151-157 | `_get`: a field of the node's `__dict__`, else the default, `'[uninitialized]'` unless one is passed |
| Internal.GetAfterInit | _internal.py:102-127 | after `__init__`, `_get("_parent")` never gives the default; it is the parent passed in unless the input dict had its own `_parent`; each input key reads as its value |
| Internal.GetAgreesWithIter | _internal.py:151-157 | `_get` of a printable field is the value iteration yields; an absent field gives the default, `'[uninitialized]'` unless one is passed |
| Internal.ReplaceCopy | _internal.py:195 | the fields of `Request(self.to_json())`: the node's JSON reloaded, with a parent of None, for a concrete class |
| Internal.ReplaceCopyAgrees | _internal.py:195 | the copy holds every field of the source, JSON values unchanged, with a parent of None |
| Internal.MetaHarObject.constructor | _internal.py:111 | a new node holds only its parent link |
| Internal.MetaHarObject.Create | _internal.py:102-127 | meta classes and bad input types are refused; otherwise the node's fields are those the init dispatch defines |
| Internal.MetaHarObject.FromDict | _internal.py:212-216 | a non-dict is refused; a dict is merged and kept even when validation then fails; passes exactly when validation does |
| Internal.MetaHarObject.ValidateInput | _internal.py:235-242 | passes exactly when name and value are present and, for non key-value classes, name, value and comment type-check |
| Internal.MetaHarObject.Replace | _internal.py:173-198 | the source is unchanged; a fresh node of the given class holds the validated JSON copy with each given key written over it |
| HarSchema.DecodedEmptyVersionMissed | har.py:157-158 | JSON decoding makes an empty version unicode, which the identity test misses and the intended test catches |
| HarSchema.EmptyLogMissesVersion | har.py:154 | for a Log built from an empty dict, the first missing field is version |
| HarSchema.LogRule | har.py:153-163 | a Log validates exactly when version, creator and entries are present, version is text, entries is a list, and pages and comment have their types when present |
| HarSchema.CreatorRule | har.py:185-192 | Creator and Browser validate exactly when name and version are present text and comment is text when present |
| HarSchema.PageRule | har.py:212-222 | a Page validates exactly when its four fields are present, the three texts are text, and comment is text when present |
| HarSchema.PageTimingsRule | har.py:241-249 | PageTimings requires nothing; onContentLoad and onLoad must be machine ints and comment text, each when present |
| HarSchema.EntryRule | har.py:260-288 | an Entry validates exactly when its five fields are present, its texts are text, and a server address is an IPv6 or IPv4 literal |
| HarSchema.RequestRule | har.py:307-322 | a Request validates exactly when its six fields are present, method, url and httpVersion are text and the two sizes are machine ints |
| HarSchema.ResponseRule | har.py:337-358 | a Response validates exactly when its nine fields are present with status and sizes machine ints, cookies and headers lists, and the texts text |
| HarSchema.ResponsePresence | har.py:346-354 | the presence part of the Response rule, field by field |
| HarSchema.ResponseTypes | har.py:338-358 | the type part of the Response rule, field by field |
| HarSchema.DefaultRule | har.py:122-129 | Cookie, Header, QueryString, Param and Cache validate exactly when name and value are present text and comment is text when present |
| HarSchema.ContentRule | har.py:402-407 | a Content validates exactly when size is a machine int and mimeType is text |
| HarSchema.TimingsRule | har.py:428-435 | a Timings validates exactly when send, wait and recieve are machine ints |
| HarSchema.Refusal | har.py:86-97 | the errors `C(v)` can raise: the assertion for a non-dict, else `_validate`'s error (`ValidationRefusal`: first missing field, some mistyped field, the server address), else `_construct`'s (`ChildRefusal`: the first refused child in statement order, recursively; `ListRefusal`: the first refused element) |
| HarSchema.RefusalRefuses | har.py:86-97 | a tree with a reported refusal is never accepted |
| HarSchema.ChildRefusalRefuses | har.py:165-296 | a reported construction error leaves some child refused |
| HarSchema.EntryReportsRequestsMissingUrl | har.py:292-296 | an Entry that validates but whose request is `{"method": "GET"}` fails with exactly Request's own MissingValue for url |
| Har.Lookup | har.py:86-103 | attribute access on a node: the instance fields `_parent` and `_json` first, then what `_validate` and `_construct` assigned, then `__getattr__`'s stored field or None |
| Har.AttrFallsBackToJson | har.py:86-109 | `_parent` reads as the node's parent link and `_json` as its dict; any other unassigned name reads as the stored field, or as None; `in` holds exactly when indexing succeeds, and indexing gives the stored field or KeyError |
| Har.HarNode.Attr | har.py:99-103 | a node's attribute, by `Lookup` over its own fields |
| Har.HarNode.Has | har.py:105-106 | `in` tests the stored dict |
| Har.HarNode.Item | har.py:108-109 | indexing reads the stored dict, KeyError when absent |
| Har.BuiltKeys | har.py:153-171 | the attributes a built node holds: its class's children, plus version for a Log whose stored version is empty |
| Har.BuiltAttrs | har.py:157-158 | after construction, a Log's version reads "1.1" when the stored version is empty and the stored version otherwise |
| Har.LogAttrs | har.py:165-171 | Log's construction sets creator and entries, and browser and pages when present, and keeps every other attribute |
| Har.PageAttrs | har.py:225-230 | Page's construction sets the parsed start time and the timings node, and keeps every other attribute |
| Har.EntryAttrs | har.py:292-296 | Entry's construction sets its four child nodes, and keeps every other attribute |
| Har.HoldsAfterSet | har.py:165-171 | assigning one attribute a built child, and growing the footprint over it, keeps every held child built and apart from its owner |
| Har.NodesBelow | har.py:170-171 | nodes built apart from the owner are each held below it once the footprint covers them all |
| Har.KidsOfBuilt | har.py:94-97 | every child attribute of a built node is a built node with no parent, or a list of them |
| Har.LeafOfBuilt | har.py:94-97 | a built node of any class other than Log, Page and Entry holds no attributes (Request's postData construction is left out) |
| Har.EntriesOfBuiltLog | har.py:165-171 | three levels down a built Log: each entry is a built Entry holding a Request node built from its request field, and that node holds no attributes |
| Har.HarNode.constructor | har.py:86-90 | a new node holds its class, its dict and its parent, and no attributes |
| Har.HarNode.Built | har.py:86-97 | the node holds exactly its class's attributes, each child attribute built from its fragment, Log's empty version defaulted, and every child is itself built |
| Har.HarNode.Build | har.py:86-92 | a node is built exactly when the whole tree is accepted; a non-dict is refused; a missing field names the first absent one; any failure is the `Refusal` of the tree, so a nested node's own error reaches the caller; a built node keeps the dict untouched and is `Built`, all the way down; a Log's version reads the default when empty |
| Har.HarNode.Init | har.py:91-92 | `_validate` then `_construct`: passes exactly when the dict's tree is accepted; a failure is the tree's `Refusal`, `_validate`'s error first; a missing field names the first absent one; on success the node is `Built` over a fresh footprint |
| Har.HarNode.BuildChild | har.py:166 | a child is built exactly when its fragment is accepted, from that fragment, with no parent, and `Built`; otherwise its own refusal is the error |
| Har.HarNode.BuildNext | har.py:170-171 | one element of a list comprehension: built exactly when it is accepted after the ones before, failing with its own refusal, leaving the nodes built before it `Built` |
| Har.HarNode.BuildAll | har.py:170-171 | all elements are built exactly when each is accepted; otherwise the error is that of the first refused element; the nodes keep the list's length and order, have no parent and are each `Built` over a fresh footprint |
| Har.HarNode.Validate | har.py:122-134 | passes exactly when the class's required fields are present, its table type-checks and, for Entry, the server address is a literal; each failure is the first check's error (`ValidationRefusal`); only Log's version default changes attributes |
| Har.HarNode.Construct | har.py:94-97 | passes exactly when every child fragment is accepted, fails with the first refused child's error (`ChildRefusal`), sets exactly the class's child attributes and keeps the others |
| Har.HarNode.SetChild | har.py:166-168 | the attribute becomes a node built from the field, exactly when that field is accepted; otherwise the field's refusal is the error |
| Har.HarNode.SetChildren | har.py:169-171 | the attribute becomes the list of nodes built from the list field, exactly when each element is accepted; otherwise the first refused element's error is the error |
| Har.HarNode.SetChildIfPresent | har.py:167-168 | an optional field becomes a child node exactly when it is present; absent, nothing changes; present, it is built exactly when accepted |
| Har.HarNode.SetChildrenIfPresent | har.py:169-170 | an optional list field becomes a list of nodes exactly when it is present; absent, nothing changes |
| Har.HarNode.ConstructLog | har.py:165-171 | Log's children are accepted exactly when creator, browser and pages (when present) and entries all are; a failure is the error of the first refused one in that order |
| Har.HarNode.ConstructPage | har.py:225-230 | an unparsable start time gives ValidationError; otherwise the timings' refusal is the error, or the parsed time and timings node are set |
| Har.HarNode.ConstructEntry | har.py:292-296 | request, response, cache and timings are built, in that order: a failure is the error of the first of them that is refused |

## Left out

- Reading files and JSON text: `har_from_file`, `from_json` and string or
  file input to `__init__`. Decoding is a parameter `decode`. Timestamps are
  reloaded as text given by a parameter `iso`, and ISO-8601 formatting is
  not modelled.
- Date parsing (dateutil) is the parameter `Env.parseDate`. Its failure is
  modelled; its grammar is not.
- `inet_pton` is the pair of parameters `Env.isIPv6Literal` and
  `Env.isIPv4Literal`. The platform's address grammar is not modelled.
- har.py's `_fields_of_type` cannot run. It is declared with `**field_defs`,
  called with one positional dict, and loops over keys as if they were
  pairs. Its tables are checked with `_check_field_types` instead.
- Creator's call of `self.__fields_of_type` is mangled to
  `_Creator__fields_of_type`. That name reaches `MetaHar.__getattr__`
  (har.py:99-103), which returns None, so the call at har.py:192 raises
  TypeError. Page's `field_types` is a NameError. The model reads both as
  the names they evidently mean.
- As written, a Request with `postData` raises NameError at har.py:326,
  because `Postdata` is defined nowhere. The model deliberately keeps
  `postData` as decoded and builds no node from it.
- `replace` names `Request`, which _internal.py does not define.
  `Internal.MetaHarObject.Replace` takes the class as a parameter.
- Entry `pageref` uniqueness is commented out in har.py and not modelled.
  So the parent link is never read, and har.py's children get no parent.
- Attribute lookup through the class, such as a method found by `_get` or by
  `__getattr__`. Only instance fields are modelled.
- `__repr__`, `__str__`, `to_json` message text and `_KeyValueHar.__eq__`.
- `set_defaults` bodies. The base one does nothing and no subclass shown
  defines one.
- Raw-HTTP devour/puke, the request engines and `utils/mario.py`: no
  implementation of the first is shown, and the others do network or pipe
  I/O.
- `InvalidChild` is never raised.
- Iteration order of dicts, and so the order of `_get_printable_kids` and
  `__iter__`. Names are a set and fields a map.
- Encoder.Default: a node reached only through a `Link` handle is reported
  as not serialisable, because the handle carries no fields.
- Internal.PrintableNames: `str(k)` of a non-ASCII key (a UnicodeEncodeError)
  is not modelled.
- Internal.Contains: the object looked up is a string. Looking up other types with
  `in` is not modelled.
- `_get` reads the instance's `__dict__` only (`Internal.Get`). A name found
  on the class, the "Attribute lookup through the class" line above, is not
  modelled.
- PyValues: `Float` holds a real number, so NaN, the infinities and `-0.0`
  are not modelled.
- Encoder.Reload: a byte string is assumed to decode as UTF-8. Otherwise
  `json.dumps` raises UnicodeDecodeError, which `replace` would pass on.
- PyValues.IsMachineInt: `sys.maxint` is fixed at its 64-bit (LP64) value.

## Findings

| source | as written | input that shows it | evidently intended | confidence | as-written member | corrected member |
|---|---|---|---|---|---|---|
| har.py:157 | `self.version is ''` tests identity with the byte-string literal | a Log decoded from JSON with `"version": ""`: the decoder gives `u''`, which is not `''`, so the default is never applied | any empty version reads `"1.1"` | not executed | HarSchema.DecodedEmptyVersionMissed | Har.HarNode.Build |
| _internal.py:247 | `_has_fields` raises `MissingValueException`, a name _internal.py never defines | a `_MetaHar` subclass built from `{"comment": "c"}`: the lookup of the exception class fails with NameError | raise `MissingValue(field, class name)` | not executed | Internal.MissingNameRaisesNameError | Validation.HasFields |
