/** The JSON encoder of the node layer: nodes are emitted without their
    `_parent` link, naive timestamps get the process time zone. `Reload` is
    what a value becomes after `json.dumps` with this encoder and
    `json.loads` of the text. */
module Encoder {
  import opened Errors
  import opened PyValues

  /** `_localize_datetime`: a naive timestamp gets `zone` (the module-level
      TIMEZONE); an aware one is returned unchanged. */
  function Localize(dt: DateTime, zone: TimeZone): (r: DateTime)
    ensures r.wall == dt.wall
    ensures r.tzinfo.Some?
    ensures dt.tzinfo.Some? ==> r == dt
    ensures dt.tzinfo.None? ==> r.tzinfo == Some(zone)
  {
    if dt.tzinfo.None? then dt.(tzinfo := Some(zone)) else dt
  }

  lemma LocalizeIdempotent(dt: DateTime, zone: TimeZone, other: TimeZone)
    ensures Localize(Localize(dt, zone), other) == Localize(dt, zone)
  {
  }

  /** A node's fields as the encoder emits them: all but `_parent`. */
  function EncodeFields(fields: map<string, Value>): (r: map<string, Value>)
    ensures r.Keys == fields.Keys - {"_parent"}
    ensures forall k :: k in r ==> r[k] == fields[k]
  {
    map k | k in fields && k != "_parent" :: fields[k]
  }

  /** What `HarEncoder.default` hands back to `json`: a dict for a node, the
      ISO-8601 text of a localised timestamp (its formatting is not modelled),
      or the base encoder's TypeError for anything else. */
  datatype Encoded = AsObject(fields: map<string, Value>) | AsIsoText(dt: DateTime) | NotSerializable

  /** `HarEncoder.default`. A node reached only through a `Link` handle
      has no fields in this model and is reported as not serialisable. */
  function Default(v: Value, zone: TimeZone): (r: Encoded)
    ensures v.Node? <==> r.AsObject?
    ensures v.Node? ==> "_parent" !in r.fields && r.fields.Keys == v.fields.Keys - {"_parent"}
    ensures v.Node? ==> forall k :: k in r.fields ==> r.fields[k] == v.fields[k]
    ensures v.Date? <==> r.AsIsoText?
    ensures v.Date? ==> r.dt.tzinfo.Some? && r.dt.wall == v.dt.wall
    ensures v.Date? && v.dt.tzinfo.Some? ==> r.dt == v.dt
  {
    match v
    case Node(_, f) => AsObject(EncodeFields(f))
    case Date(dt) => AsIsoText(Localize(dt, zone))
    case _ => NotSerializable
  }

  /** tests/test_har.py:41-47: with TIMEZONE set to a zone, a naive timestamp
      encodes exactly like the same wall-clock time explicitly in that zone. */
  lemma NaiveEncodesAsLocalZone(w: WallClock, zone: TimeZone)
    ensures Default(Date(DateTime(w, None)), zone) == Default(Date(DateTime(w, Some(zone))), zone)
  {
  }

  /** The values `json.loads` produces: no byte strings, timestamps, nodes or links. */
  predicate IsJsonValue(v: Value) {
    match v
    case Null => true
    case Bool(_) => true
    case Int(_) => true
    case Float(_) => true
    case Unicode(_) => true
    case List(xs) => forall i :: 0 <= i < |xs| ==> IsJsonValue(xs[i])
    case Dict(m) => forall k :: k in m ==> IsJsonValue(m[k])
    case _ => false
  }

  /** `json.loads(json.dumps(v, cls=HarEncoder))`, or None when the encoder
      raises TypeError. Strings come back as unicode, nodes as plain dicts
      without `_parent`, timestamps as the unicode text `iso` gives them. */
  function Reload(v: Value, zone: TimeZone, iso: DateTime -> string): Option<Value>
    decreases v
  {
    match v
    case Null => Some(v)
    case Bool(_) => Some(v)
    case Int(_) => Some(v)
    case Float(_) => Some(v)
    case Str(s) => Some(Unicode(s))
    case Unicode(_) => Some(v)
    case List(xs) =>
      if forall i :: 0 <= i < |xs| ==> Reload(xs[i], zone, iso).Some?
      then Some(List(seq(|xs|, i requires 0 <= i < |xs| => Reload(xs[i], zone, iso).value)))
      else None
    case Dict(m) =>
      if forall k :: k in m ==> Reload(m[k], zone, iso).Some?
      then Some(Dict(map k | k in m :: Reload(m[k], zone, iso).value))
      else None
    case Node(_, f) =>
      if forall k :: k in f && k != "_parent" ==> Reload(f[k], zone, iso).Some?
      then Some(Dict(map k | k in f && k != "_parent" :: Reload(f[k], zone, iso).value))
      else None
    case Date(dt) => Some(Unicode(iso(Localize(dt, zone))))
    case Link(_) => None
  }

  /** Whatever survives the round trip is a plain JSON value. */
  lemma {:induction false} ReloadGivesJson(v: Value, zone: TimeZone, iso: DateTime -> string)
    requires Reload(v, zone, iso).Some?
    ensures IsJsonValue(Reload(v, zone, iso).value)
    decreases v
  {
    match v
    case List(xs) =>
      forall i | 0 <= i < |xs| ensures IsJsonValue(Reload(xs[i], zone, iso).value) {
        ReloadGivesJson(xs[i], zone, iso);
      }
    case Dict(m) =>
      forall k | k in m ensures IsJsonValue(Reload(m[k], zone, iso).value) {
        ReloadGivesJson(m[k], zone, iso);
      }
    case Node(_, f) =>
      forall k | k in f && k != "_parent" ensures IsJsonValue(Reload(f[k], zone, iso).value) {
        ReloadGivesJson(f[k], zone, iso);
      }
    case _ =>
  }

  /** A plain JSON value comes back from the round trip unchanged. */
  lemma {:induction false} JsonValueReloadsToItself(v: Value, zone: TimeZone, iso: DateTime -> string)
    requires IsJsonValue(v)
    ensures Reload(v, zone, iso) == Some(v)
    decreases v
  {
    match v
    case List(xs) =>
      forall i | 0 <= i < |xs| ensures Reload(xs[i], zone, iso) == Some(xs[i]) {
        JsonValueReloadsToItself(xs[i], zone, iso);
      }
      assert seq(|xs|, i requires 0 <= i < |xs| => Reload(xs[i], zone, iso).value) == xs;
    case Dict(m) =>
      forall k | k in m ensures Reload(m[k], zone, iso) == Some(m[k]) {
        JsonValueReloadsToItself(m[k], zone, iso);
      }
      var r := Reload(v, zone, iso).value;
      assert r.m.Keys == m.Keys;
      assert forall k :: k in m ==> r.m[k] == m[k];
      assert r.m == m;
    case _ =>
  }

  /** One round trip normalises: a second one changes nothing. */
  lemma ReloadIdempotent(v: Value, zone: TimeZone, iso: DateTime -> string)
    requires Reload(v, zone, iso).Some?
    ensures Reload(Reload(v, zone, iso).value, zone, iso) == Reload(v, zone, iso)
  {
    ReloadGivesJson(v, zone, iso);
    JsonValueReloadsToItself(Reload(v, zone, iso).value, zone, iso);
  }
}
