/** The builtin functions of the registry, and lookup by name. Every builtin
    returns a fresh value or nil (`None`) and never changes its arguments; the
    arguments are the objects passed in, in order. */
module Builtins {
  import opened Wrappers
  import opened Int64
  import opened Objects

  /** `len`: the element count of an array or the byte count of a string. */
  function LenBuiltin(args: seq<Object>): (r: Option<Object>)
    ensures |args| != 1 ==> r == Some(Error(WrongArgumentCount(|args|, 1)))
    ensures |args| == 1 && args[0].Array? ==> r == Some(Integer(Wrap64(|args[0].elements|)))
    ensures |args| == 1 && args[0].Str? ==> r == Some(Integer(Wrap64(|args[0].text|)))
    ensures |args| == 1 && !args[0].Array? && !args[0].Str? ==>
      r == Some(Error(NotSupported("len", TypeOf(args[0]))))
  {
    if |args| != 1 then Some(Error(WrongArgumentCount(|args|, 1)))
    else match args[0]
      case Array(elements) => Some(Integer(Wrap64(|elements|)))
      case Str(text) => Some(Integer(Wrap64(|text|)))
      case _ => Some(Error(NotSupported("len", TypeOf(args[0]))))
  }

  /** `puts` prints each argument's text and returns nil; the printing is
      output only and is not modelled. */
  function PutsBuiltin(args: seq<Object>): (r: Option<Object>)
    ensures r == None
  {
    None
  }

  /** The check `first`, `last` and `rest` make before they look at the array:
      exactly one argument, and an array. */
  function CheckOneArray(name: string, args: seq<Object>): (r: Option<Object>)
    ensures r.None? <==> |args| == 1 && args[0].Array?
    ensures |args| != 1 ==> r == Some(Error(WrongArgumentCount(|args|, 1)))
    ensures |args| == 1 && !args[0].Array? ==> r == Some(Error(MustBeArray(name, TypeOf(args[0]))))
  {
    if |args| != 1 then Some(Error(WrongArgumentCount(|args|, 1)))
    else if !args[0].Array? then Some(Error(MustBeArray(name, TypeOf(args[0]))))
    else None
  }

  /** `first`: element 0 of a non-empty array, nil for an empty one. */
  function FirstBuiltin(args: seq<Object>): (r: Option<Object>)
    ensures CheckOneArray("first", args).Some? ==> r == CheckOneArray("first", args)
    ensures CheckOneArray("first", args).None? ==>
      var a := args[0].elements;
      r == if |a| > 0 then Some(a[0]) else None
  {
    var check := CheckOneArray("first", args);
    if check.Some? then check
    else if |args[0].elements| > 0 then Some(args[0].elements[0])
    else None
  }

  /** `last`: the element at length-1 of a non-empty array, nil for an empty one. */
  function LastBuiltin(args: seq<Object>): (r: Option<Object>)
    ensures CheckOneArray("last", args).Some? ==> r == CheckOneArray("last", args)
    ensures CheckOneArray("last", args).None? ==>
      var a := args[0].elements;
      r == if |a| > 0 then Some(a[|a| - 1]) else None
  {
    var check := CheckOneArray("last", args);
    if check.Some? then check
    else
      var length := |args[0].elements|;
      if length > 0 then Some(args[0].elements[length - 1]) else None
  }

  /** `rest`: a new array of every element but the first, nil for an empty one. */
  function RestBuiltin(args: seq<Object>): (r: Option<Object>)
    ensures CheckOneArray("rest", args).Some? ==> r == CheckOneArray("rest", args)
    ensures CheckOneArray("rest", args).None? ==>
      var a := args[0].elements;
      (|a| == 0 ==> r == None)
      && (|a| > 0 ==>
            r.Some? && r.value.Array? && |r.value.elements| == |a| - 1
            && forall i :: 0 <= i < |a| - 1 ==> r.value.elements[i] == a[i + 1])
  {
    var check := CheckOneArray("rest", args);
    if check.Some? then check
    else
      var length := |args[0].elements|;
      if length > 0 then Some(Array(args[0].elements[1..length])) else None
  }

  /** `push`: a new array one longer than the first argument, holding its
      elements and then the second argument. */
  function PushBuiltin(args: seq<Object>): (r: Option<Object>)
    ensures |args| != 2 ==> r == Some(Error(WrongArgumentCount(|args|, 2)))
    ensures |args| == 2 && !args[0].Array? ==> r == Some(Error(MustBeArray("push", TypeOf(args[0]))))
    ensures |args| == 2 && args[0].Array? ==>
      var a := args[0].elements;
      r.Some? && r.value.Array? && |r.value.elements| == |a| + 1
      && r.value.elements[..|a|] == a && r.value.elements[|a|] == args[1]
  {
    if |args| != 2 then Some(Error(WrongArgumentCount(|args|, 2)))
    else if !args[0].Array? then Some(Error(MustBeArray("push", TypeOf(args[0]))))
    else Some(Array(args[0].elements + [args[1]]))
  }

  /** The native function behind each registry entry. */
  function Apply(fn: BuiltinFunction, args: seq<Object>): Option<Object>
    requires fn != StringLen
  {
    match fn
    case Len => LenBuiltin(args)
    case Puts => PutsBuiltin(args)
    case First => FirstBuiltin(args)
    case Last => LastBuiltin(args)
    case Rest => RestBuiltin(args)
    case Push => PushBuiltin(args)
  }

  datatype Entry = Entry(name: string, builtin: BuiltinFunction)

  /** The registry, in the order the builtins are numbered. */
  const Registry: seq<Entry> := [
    Entry("len", Len), Entry("puts", Puts), Entry("first", First),
    Entry("last", Last), Entry("rest", Rest), Entry("push", Push)]

  /** The builtin of the first entry from `i` on with the given name. */
  function FirstNamed(name: string, i: nat): (r: Option<BuiltinFunction>)
    requires i <= |Registry|
    ensures r.Some? <==> exists k :: i <= k < |Registry| && Registry[k].name == name
    ensures r.Some? ==> exists k :: i <= k < |Registry| && Registry[k] == Entry(name, r.value)
                                  && forall j :: i <= j < k ==> Registry[j].name != name
    decreases |Registry| - i
  {
    if i == |Registry| then None
    else if Registry[i].name == name then Some(Registry[i].builtin)
    else FirstNamed(name, i + 1)
  }

  /** `GetBuiltinByName`: the builtin of the first registry entry with that
      name, or nil when there is none. */
  method GetBuiltinByName(name: string) returns (r: Option<BuiltinFunction>)
    ensures r == FirstNamed(name, 0)
  {
    var i := 0;
    while i < |Registry|
      invariant i <= |Registry|
      invariant FirstNamed(name, i) == FirstNamed(name, 0)
    {
      if Registry[i].name == name {
        return Some(Registry[i].builtin);
      }
      i := i + 1;
    }
    return None;
  }

  /** The registry names are distinct, so each entry's name finds that entry:
      `len` is builtin 0, `puts` 1, and so on. */
  lemma RegistryLookup(i: nat)
    requires i < |Registry|
    ensures FirstNamed(Registry[i].name, 0) == Some(Registry[i].builtin)
  {
    var name := Registry[i].name;
    var r := FirstNamed(name, 0);
    var k :| 0 <= k < |Registry| && Registry[k] == Entry(name, r.value)
             && forall j :: 0 <= j < k ==> Registry[j].name != name;
    assert k == i by {
      RegistryNamesDistinct(i, k);
    }
  }

  lemma RegistryNamesDistinct(i: nat, k: nat)
    requires i < |Registry| && k < |Registry|
    requires Registry[i].name == Registry[k].name
    ensures i == k
  {
    assert Registry[i].name[0] == Registry[k].name[0];
    assert |Registry[i].name| == |Registry[k].name|;
  }

  /** `push` then `last` gives back the pushed value, and `push` then `len`
      counts one more element. */
  lemma PushThenLast(a: seq<Object>, x: Object)
    ensures LastBuiltin([PushBuiltin([Array(a), x]).value]) == Some(x)
    ensures |a| < MaxInt64 ==> LenBuiltin([PushBuiltin([Array(a), x]).value]) == Some(Integer(|a| + 1))
  {
    var pushed := PushBuiltin([Array(a), x]).value;
    assert pushed.elements == a + [x];
  }

  /** `rest` of a non-empty array is one shorter, and `first` and `rest`
      together give back the whole array. */
  lemma FirstAndRest(a: seq<Object>)
    requires |a| > 0
    ensures var rest := RestBuiltin([Array(a)]).value;
      rest.Array? && [FirstBuiltin([Array(a)]).value] + rest.elements == a
  {
    var rest := RestBuiltin([Array(a)]).value;
    assert rest.elements == a[1..];
  }

  /** `push` leaves room for everything it was given: pushing onto the result
      of `rest` restores the length of a non-empty array. */
  lemma RestThenPush(a: seq<Object>, x: Object)
    requires |a| > 0
    ensures var rest := RestBuiltin([Array(a)]).value;
      var pushed := PushBuiltin([rest, x]).value;
      pushed.Array? && pushed.elements == a[1..] + [x]
  {
    var rest := RestBuiltin([Array(a)]).value;
    assert rest.elements == a[1..];
  }
}
