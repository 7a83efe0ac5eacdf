/** The Python values a HAR node's fields can hold, with the two ways the
    source inspects them: the exact runtime type (`type(x)`) and `isinstance`. */
module PyValues {
  import opened Errors

  /** A `tzinfo` object, known only by name (the local zone, an offset, ...). */
  datatype TimeZone = Zone(name: string)

  datatype WallClock = WallClock(year: int, month: int, day: int,
                                 hour: int, minute: int, second: int, microsecond: int)

  /** A `datetime`; it is naive when `tzinfo` is None. */
  datatype DateTime = DateTime(wall: WallClock, tzinfo: Option<TimeZone>)

  /** A field value. `Node` is a HAR node held by value (its class name and its
      `__dict__`); `Link` is a non-owning reference to a node by handle, which is
      what a `_parent` back-reference is. */
  datatype Value =
    | Null
    | Bool(b: bool)
    | Int(i: int)
    | Float(r: real)
    | Str(s: string)
    | Unicode(s: string)
    | List(items: seq<Value>)
    | Dict(m: map<string, Value>)
    | Date(dt: DateTime)
    | Node(cls: string, fields: map<string, Value>)
    | Link(handle: nat)
  {
    /** Both Python 2 string types. */
    predicate IsText() { Str? || Unicode? }
  }

  /** Python 2 runtime types. */
  datatype Tag =
    | TNone | TBool | TInt | TLong | TFloat | TStr | TUnicode
    | TList | TDict | TDateTime | TNode(cls: string) | TLinked

  /** `sys.maxint` of a 64-bit CPython 2; a larger integer is a `long`. */
  const MaxInt: int := 0x7fff_ffff_ffff_ffff

  predicate IsMachineInt(i: int) {
    -MaxInt - 1 <= i <= MaxInt
  }

  /** `type(v)`: a bool is not an int, a big integer is a long. */
  function TypeOf(v: Value): Tag {
    match v
    case Null => TNone
    case Bool(_) => TBool
    case Int(i) => if IsMachineInt(i) then TInt else TLong
    case Float(_) => TFloat
    case Str(_) => TStr
    case Unicode(_) => TUnicode
    case List(_) => TList
    case Dict(_) => TDict
    case Date(_) => TDateTime
    case Node(c, _) => TNode(c)
    case Link(_) => TLinked
  }

  /** `isinstance(v, (_MetaHar, list, unicode, dict, int, str))`. A bool is an
      instance of int; a long is not. */
  predicate IsPrintable(v: Value) {
    match v
    case Node(_, _) => true
    case Link(_) => true
    case List(_) => true
    case Unicode(_) => true
    case Dict(_) => true
    case Str(_) => true
    case Bool(_) => true
    case Int(i) => IsMachineInt(i)
    case _ => false
  }

  /** Python truthiness (`if v:`). Objects without `__len__` are true. */
  predicate Truthy(v: Value) {
    match v
    case Null => false
    case Bool(b) => b
    case Int(i) => i != 0
    case Float(r) => r != 0.0
    case Str(s) => s != ""
    case Unicode(s) => s != ""
    case List(xs) => xs != []
    case Dict(m) => m != map[]
    case Date(_) => true
    case Node(_, _) => true
    case Link(_) => true
  }

  /** The exact type check and `isinstance` disagree about booleans: a bool
      is printable as an int but never has type int. */
  lemma BoolIsIntOnlyForIsinstance(b: bool)
    ensures IsPrintable(Bool(b))
    ensures TypeOf(Bool(b)) != TInt
    ensures IsPrintable(Int(0)) && TypeOf(Int(0)) == TInt
  {
  }
}
