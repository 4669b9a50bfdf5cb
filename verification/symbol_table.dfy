/** The compiler's symbol table: a chain of scopes, each handing out indices
    in definition order, with name resolution from the innermost scope
    outward. */
module SymbolTable {
  import opened Wrappers

  datatype Scope = GlobalScope | LocalScope | BuiltinScope

  /** Symbols are values: two are equal when name, scope and index are. */
  datatype Symbol = Symbol(name: string, scope: Scope, index: int)

  class SymbolTable {
    /** The enclosing table, or null for the outermost one. */
    const outer: SymbolTable?
    /** How many tables enclose this one. */
    ghost const depth: nat
    /** Every table that encloses this one. */
    ghost const Outers: set<SymbolTable>

    var store: map<string, Symbol>
    var numDefinitions: nat

    /** The chain of enclosing tables ends, and `Outers` is exactly it. */
    ghost predicate Valid()
      decreases depth
    {
      if outer == null then depth == 0 && Outers == {}
      else outer.depth < depth && Outers == {outer} + outer.Outers && outer.Valid()
    }

    /** Every symbol is stored under its own name; a table's defined symbols
        are global at the outermost table and local elsewhere, with indices
        below the table's definition count. */
    ghost predicate Sound()
      reads this
    {
      forall n :: n in store ==>
        store[n].name == n
        && (store[n].scope == GlobalScope ==> outer == null)
        && (store[n].scope == LocalScope ==> outer != null)
        && (store[n].scope != BuiltinScope ==> 0 <= store[n].index < numDefinitions)
    }

    /** This table and every table enclosing it are sound. */
    ghost predicate Consistent()
      requires Valid()
      reads this, Outers
      decreases depth
    {
      Sound() && (outer != null ==> outer.Consistent())
    }

    /** The outermost table of the chain. */
    ghost function Outermost(): (t: SymbolTable)
      requires Valid()
      ensures t.Valid() && t.outer == null
      ensures t == this || t in Outers
      decreases depth
    {
      if outer == null then this else outer.Outermost()
    }

    /** `NewSymbolTable`: an outermost table with no definitions. */
    constructor ()
      ensures Valid() && Consistent() && outer == null
      ensures store == map[] && numDefinitions == 0
    {
      outer := null;
      depth := 0;
      Outers := {};
      store := map[];
      numDefinitions := 0;
    }

    /** `NewEnclosedSymbolTable`: an empty table enclosed by `outer`; its
        definition count starts again at 0. */
    constructor Enclosed(outer: SymbolTable)
      requires outer.Valid()
      ensures Valid() && this.outer == outer && Outers == {outer} + outer.Outers
      ensures store == map[] && numDefinitions == 0
      ensures outer.Consistent() ==> Consistent()
    {
      this.outer := outer;
      depth := outer.depth + 1;
      Outers := {outer} + outer.Outers;
      store := map[];
      numDefinitions := 0;
    }

    /** `Define`: the name gets the next index of this table, in global scope
        at the outermost table and local scope elsewhere; a name defined again
        is bound to the new symbol. */
    method Define(name: string) returns (sym: Symbol)
      requires Valid()
      modifies this
      ensures sym == Symbol(name, if outer == null then GlobalScope else LocalScope, old(numDefinitions))
      ensures store == old(store)[name := sym] && numDefinitions == old(numDefinitions) + 1
      ensures old(Sound()) ==> Sound()
      ensures Resolve(name) == Some(sym)
    {
      sym := Symbol(name, if outer == null then GlobalScope else LocalScope, numDefinitions);
      store := store[name := sym];
      numDefinitions := numDefinitions + 1;
    }

    /** `DefineBuiltin`: the name is bound to the builtin with the given
        index; the definition count does not move. */
    method DefineBuiltin(index: int, name: string) returns (sym: Symbol)
      requires Valid()
      modifies this
      ensures sym == Symbol(name, BuiltinScope, index)
      ensures store == old(store)[name := sym] && numDefinitions == old(numDefinitions)
      ensures old(Sound()) ==> Sound()
      ensures Resolve(name) == Some(sym)
    {
      sym := Symbol(name, BuiltinScope, index);
      store := store[name := sym];
    }

    /** `Resolve`: the symbol bound to the name in the innermost table of the
        chain that binds it, or none. */
    function Resolve(name: string): (r: Option<Symbol>)
      requires Valid()
      reads this, Outers
      ensures name in store ==> r == Some(store[name])
      ensures name !in store && outer == null ==> r == None
      decreases depth
    {
      if name in store then Some(store[name])
      else if outer == null then None
      else outer.Resolve(name)
    }

    /** No table of the chain but the outermost binds the name. */
    ghost predicate OnlyOutermostBinds(name: string)
      requires Valid()
      reads this, Outers
      decreases depth
    {
      outer != null ==> name !in store && outer.OnlyOutermostBinds(name)
    }

    /** A name only the outermost table binds, such as a global or a builtin
        that no scope redefines, resolves from every table of the chain to the
        very symbol the outermost table holds. */
    lemma {:induction false} ResolvesAsOutermost(name: string)
      requires Valid() && OnlyOutermostBinds(name)
      ensures Resolve(name) == Outermost().Resolve(name)
      decreases depth
    {
      if outer != null {
        outer.ResolvesAsOutermost(name);
      }
    }

    /** In a consistent chain a resolved symbol carries the name asked for; a
        global one is the outermost table's own binding, and a local one was
        found below the outermost table. */
    lemma {:induction false} ResolvedScope(name: string)
      requires Valid() && Consistent() && Resolve(name).Some?
      ensures Resolve(name).value.name == name
      ensures Resolve(name).value.scope == GlobalScope ==>
        name in Outermost().store && Outermost().store[name] == Resolve(name).value
      ensures Resolve(name).value.scope == LocalScope ==> outer != null
      decreases depth
    {
      if name !in store {
        outer.ResolvedScope(name);
      }
    }
  }

  /** Defining `a`, `b` in a new table, `c`, `d` in a table it encloses and
      `e`, `f` in a third, innermost one: global indices 0 and 1, then local
      indices starting again at 0 in each enclosed table. */
  method DefineExample() returns (a: Symbol, b: Symbol, c: Symbol, d: Symbol, e: Symbol, f: Symbol)
    ensures a == Symbol("a", GlobalScope, 0) && b == Symbol("b", GlobalScope, 1)
    ensures c == Symbol("c", LocalScope, 0) && d == Symbol("d", LocalScope, 1)
    ensures e == Symbol("e", LocalScope, 0) && f == Symbol("f", LocalScope, 1)
  {
    var global, firstLocal, secondLocal;
    global, a, b := OutermostWithTwo("a", "b");
    firstLocal, c, d := EnclosedWithTwo(global, "c", "d");
    secondLocal, e, f := EnclosedWithTwo(firstLocal, "e", "f");
  }

  /** The tables of the resolution tests: `a`, `b` defined in the outermost
      table, `c`, `d` in a table it encloses, `e`, `f` in a third table
      enclosed by that one. */
  method NestedTables() returns (global: SymbolTable, firstLocal: SymbolTable, secondLocal: SymbolTable)
    ensures secondLocal.Valid() && secondLocal.outer == firstLocal && firstLocal.outer == global
    ensures global.outer == null
    ensures global.store == map["a" := Symbol("a", GlobalScope, 0), "b" := Symbol("b", GlobalScope, 1)]
    ensures firstLocal.store == map["c" := Symbol("c", LocalScope, 0), "d" := Symbol("d", LocalScope, 1)]
    ensures secondLocal.store == map["e" := Symbol("e", LocalScope, 0), "f" := Symbol("f", LocalScope, 1)]
  {
    var a, b, c, d, e, f;
    global, a, b := OutermostWithTwo("a", "b");
    firstLocal, c, d := EnclosedWithTwo(global, "c", "d");
    secondLocal, e, f := EnclosedWithTwo(firstLocal, "e", "f");
  }

  /** A new outermost table in which `x` and then `y` are defined. */
  method OutermostWithTwo(x: string, y: string) returns (t: SymbolTable, sx: Symbol, sy: Symbol)
    requires x != y
    ensures fresh(t) && t.Valid() && t.outer == null
    ensures sx == Symbol(x, GlobalScope, 0) && sy == Symbol(y, GlobalScope, 1)
    ensures t.store == map[x := Symbol(x, GlobalScope, 0), y := Symbol(y, GlobalScope, 1)]
  {
    t := new SymbolTable();
    sx := t.Define(x);
    sy := t.Define(y);
  }

  /** A new table enclosed by `outer` in which `x` and then `y` are defined. */
  method EnclosedWithTwo(outer: SymbolTable, x: string, y: string) returns (t: SymbolTable, sx: Symbol, sy: Symbol)
    requires outer.Valid() && x != y
    ensures fresh(t) && t.Valid() && t.outer == outer
    ensures sx == Symbol(x, LocalScope, 0) && sy == Symbol(y, LocalScope, 1)
    ensures t.store == map[x := Symbol(x, LocalScope, 0), y := Symbol(y, LocalScope, 1)]
  {
    t := new SymbolTable.Enclosed(outer);
    sx := t.Define(x);
    sy := t.Define(y);
  }

  /** Resolving from the table enclosed by the outermost one: the globals
      come back unchanged and the table's own names as its locals 0 and 1. */
  method ResolveLocalExample() returns (resolved: seq<Option<Symbol>>)
    ensures resolved == [Some(Symbol("a", GlobalScope, 0)), Some(Symbol("b", GlobalScope, 1)),
                         Some(Symbol("c", LocalScope, 0)), Some(Symbol("d", LocalScope, 1))]
  {
    var global, firstLocal, secondLocal := NestedTables();
    resolved := [firstLocal.Resolve("a"), firstLocal.Resolve("b"), firstLocal.Resolve("c"), firstLocal.Resolve("d")];
  }

  /** Resolving from the innermost table: the globals still come back
      unchanged, and `e`, `f` as the innermost table's locals 0 and 1. */
  method ResolveNestedLocalExample() returns (resolved: seq<Option<Symbol>>)
    ensures resolved == [Some(Symbol("a", GlobalScope, 0)), Some(Symbol("b", GlobalScope, 1)),
                         Some(Symbol("e", LocalScope, 0)), Some(Symbol("f", LocalScope, 1))]
  {
    var global, firstLocal, secondLocal := NestedTables();
    assert secondLocal.Resolve("a") == firstLocal.Resolve("a") == global.Resolve("a");
    assert secondLocal.Resolve("b") == firstLocal.Resolve("b") == global.Resolve("b");
    resolved := [secondLocal.Resolve("a"), secondLocal.Resolve("b"), secondLocal.Resolve("e"), secondLocal.Resolve("f")];
  }

  /** Builtins defined on the outermost table with indices 0 to 3 resolve to
      the same symbols from that table and from two levels of enclosed
      tables. */
  method BuiltinsExample(names: seq<string>)
    returns (global: seq<Option<Symbol>>, first: seq<Option<Symbol>>, second: seq<Option<Symbol>>)
    requires names == ["a", "c", "e", "f"]
    ensures var expected := seq(4, i requires 0 <= i < 4 => Some(Symbol(names[i], BuiltinScope, i)));
      global == expected && first == expected && second == expected
  {
    var globalTable := new SymbolTable();
    var firstLocal := new SymbolTable.Enclosed(globalTable);
    var secondLocal := new SymbolTable.Enclosed(firstLocal);
    var i := 0;
    while i < 4
      invariant i <= 4
      invariant forall k :: 0 <= k < i ==> globalTable.Resolve(names[k]) == Some(Symbol(names[k], BuiltinScope, k))
      invariant forall k :: i <= k < 4 ==> names[k] !in globalTable.store
      invariant firstLocal.store == map[] && secondLocal.store == map[]
    {
      var _ := globalTable.DefineBuiltin(i, names[i]);
      i := i + 1;
    }
    global := [];
    first := [];
    second := [];
    assert secondLocal.Outermost() == globalTable;
    for k := 0 to 4
      invariant firstLocal.store == map[] && secondLocal.store == map[]
      invariant forall j :: 0 <= j < 4 ==> globalTable.Resolve(names[j]) == Some(Symbol(names[j], BuiltinScope, j))
      invariant |global| == |first| == |second| == k
      invariant forall j :: 0 <= j < k ==> global[j] == first[j] == second[j] == Some(Symbol(names[j], BuiltinScope, j))
    {
      secondLocal.ResolvesAsOutermost(names[k]);
      firstLocal.ResolvesAsOutermost(names[k]);
      global := global + [globalTable.Resolve(names[k])];
      first := first + [firstLocal.Resolve(names[k])];
      second := second + [secondLocal.Resolve(names[k])];
    }
  }
}
