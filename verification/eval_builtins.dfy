/** The tree-walking interpreter's own builtins: a map holding one function,
    a `len` that accepts strings only. */
module EvalBuiltins {
  import opened Wrappers
  import opened Int64
  import opened Objects
  import Builtins

  const EvalBuiltinNames: map<string, BuiltinFunction> := map["len" := StringLen]

  /** The interpreter's `len`: the byte count of a string; any other argument,
      arrays included, is an error. */
  function StringLenBuiltin(args: seq<Object>): (r: Option<Object>)
    ensures |args| != 1 ==> r == Some(Error(WrongArgumentCount(|args|, 1)))
    ensures |args| == 1 && args[0].Str? ==> r == Some(Integer(Wrap64(|args[0].text|)))
    ensures |args| == 1 && !args[0].Str? ==> r == Some(Error(NotSupported("len", TypeOf(args[0]))))
  {
    if |args| != 1 then Some(Error(WrongArgumentCount(|args|, 1)))
    else match args[0]
      case Str(text) => Some(Integer(Wrap64(|text|)))
      case _ => Some(Error(NotSupported("len", TypeOf(args[0]))))
  }

  /** The map holds exactly one name, `len`. */
  lemma OnlyLen(name: string)
    ensures name in EvalBuiltinNames <==> name == "len"
    ensures name in EvalBuiltinNames ==> EvalBuiltinNames[name] == StringLen
  {
  }

  /** The interpreter's `len` agrees with the registry's `len` on everything
      but a single array argument, which only the registry's counts. */
  lemma StringLenAgreesWithLen(args: seq<Object>)
    ensures !(|args| == 1 && args[0].Array?) ==> StringLenBuiltin(args) == Builtins.LenBuiltin(args)
    ensures |args| == 1 && args[0].Array? ==>
      StringLenBuiltin(args).value.Error? && Builtins.LenBuiltin(args).value.Integer?
  {
  }
}
