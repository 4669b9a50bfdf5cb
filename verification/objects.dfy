/** The runtime values. One datatype covers every kind of object the
    interpreter and the builtins hand around. */
module Objects {
  import opened Bytes
  import opened Int64
  import opened Decimal

  /** The type tags an object reports. */
  datatype ObjectType =
    | IntegerObj | BooleanObj | NullObj | ReturnValueObj
    | StringObj | ArrayObj | ErrorObj | BuiltinObj

  /** The native functions a builtin object can hold: the five registry
      entries plus `puts`, and the evaluator's own string-only `len`. */
  datatype BuiltinFunction = Len | Puts | First | Last | Rest | Push | StringLen

  /** What went wrong in a builtin; the message text is not modelled. */
  datatype ErrorKind =
    | WrongArgumentCount(got: nat, want: nat)
    | NotSupported(builtin: string, gotType: ObjectType)
    | MustBeArray(builtin: string, gotType: ObjectType)

  datatype Object =
    | Integer(intValue: Int64)
    | Boolean(boolValue: bool)
    | Null
    | ReturnValue(wrapped: Object)
    | Str(text: ByteString)
    | Array(elements: seq<Object>)
    | Error(kind: ErrorKind)
    | Builtin(fn: BuiltinFunction)

  /** `Type()`: the tag of each kind of object. */
  function TypeOf(o: Object): (t: ObjectType)
    ensures t == IntegerObj <==> o.Integer?
    ensures t == BooleanObj <==> o.Boolean?
    ensures t == NullObj <==> o.Null?
    ensures t == ReturnValueObj <==> o.ReturnValue?
    ensures t == StringObj <==> o.Str?
    ensures t == ArrayObj <==> o.Array?
    ensures t == ErrorObj <==> o.Error?
    ensures t == BuiltinObj <==> o.Builtin?
  {
    match o
    case Integer(_) => IntegerObj
    case Boolean(_) => BooleanObj
    case Null => NullObj
    case ReturnValue(_) => ReturnValueObj
    case Str(_) => StringObj
    case Array(_) => ArrayObj
    case Error(_) => ErrorObj
    case Builtin(_) => BuiltinObj
  }

  /** The four tags whose string values the object definitions declare. */
  predicate IsDeclaredType(t: ObjectType) {
    t.IntegerObj? || t.BooleanObj? || t.NullObj? || t.ReturnValueObj?
  }

  function TypeName(t: ObjectType): string
    requires IsDeclaredType(t)
  {
    match t
    case IntegerObj => "Integer"
    case BooleanObj => "Boolean"
    case NullObj => "Null"
    case ReturnValueObj => "ReturnValue"
  }

  /** The declared tag strings are pairwise distinct, so `Type()` tells the
      four kinds apart. */
  lemma TypeNamesDistinct(a: ObjectType, b: ObjectType)
    requires IsDeclaredType(a) && IsDeclaredType(b)
    ensures TypeName(a) == TypeName(b) <==> a == b
  {
    assert TypeName(a)[0] == TypeName(b)[0] ==> a == b;
  }

  /** The objects whose `Inspect` the object definitions give. */
  predicate Inspectable(o: Object) {
    match o
    case Integer(_) => true
    case Boolean(_) => true
    case Null => true
    case ReturnValue(v) => Inspectable(v)
    case _ => false
  }

  /** `Inspect()`: `%d` of an integer, `%t` of a boolean, "null", and the
      wrapped value's text for a return value. */
  function Inspect(o: Object): string
    requires Inspectable(o)
  {
    match o
    case Integer(v) => IntToString(v)
    case Boolean(b) => if b then "true" else "false"
    case Null => "null"
    case ReturnValue(v) => Inspect(v)
  }

  /** The text of an integer reads back as its value: a minus sign in front of
      the magnitude's digits for a negative one, the digits alone otherwise. */
  lemma InspectInteger(v: Int64)
    ensures v >= 0 ==> DigitsValue(Inspect(Integer(v)), 10) == v
    ensures v < 0 ==> Inspect(Integer(v))[0] == '-' && DigitsValue(Inspect(Integer(v))[1..], 10) == -(v as int)
  {
    assert Inspect(Integer(v)) == IntToString(v);
    IntToStringRoundTrip(v);
  }

  /** The boolean texts tell the two values apart, and no integer, boolean or
      null prints like an object of another kind. */
  lemma InspectDistinguishesKinds(a: Object, b: Object)
    requires a.Integer? || a.Boolean? || a.Null?
    requires b.Integer? || b.Boolean? || b.Null?
    ensures Inspect(a) == Inspect(b) ==> TypeOf(a) == TypeOf(b)
    ensures a.Boolean? && b.Boolean? ==> (Inspect(a) == Inspect(b) <==> a == b)
  {
    if a.Integer? && !b.Integer? {
      assert IsDigit(Inspect(a)[0]) || Inspect(a)[0] == '-';
    }
    if b.Integer? && !a.Integer? {
      assert IsDigit(Inspect(b)[0]) || Inspect(b)[0] == '-';
    }
  }

  /** However deeply a value is wrapped in return values, it inspects as the
      value itself. */
  lemma {:induction false} InspectUnwraps(o: Object)
    requires Inspectable(o)
    ensures Inspect(o) == Inspect(Unwrapped(o))
  {
    if o.ReturnValue? {
      InspectUnwraps(o.wrapped);
    }
  }

  /** The value inside any number of return-value wrappers. */
  function Unwrapped(o: Object): (r: Object)
    ensures !r.ReturnValue?
    ensures Inspectable(o) ==> Inspectable(r)
  {
    if o.ReturnValue? then Unwrapped(o.wrapped) else o
  }
}
