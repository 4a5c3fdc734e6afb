/** What compiling a class and a whole program does to the generator's state.

    A base class emits, per method, a header line, the lines of its body's
    statements and a closing line, then its vtable line; a derived class
    emits one line per method (header and body text together), then its
    vtable line. Before a derived class is compiled, its superclass is
    compiled if the memo does not have it yet. The memo entry stored for a
    class is always the reference table TableOf gives (ClassEffect's
    contract), so a table, once stored, never changes. */
module Compilation {
  import opened Ast
  import opened Text
  import opened VTables
  import opened ClassTable
  import opened Lowering

  /** The parameter list of an emitted function: each parameter followed by
      ",", the receiver `self` coming last. */
  function ParamsText(r: Renderer, ps: seq<VarDec>): string
  {
    if ps == [] then "" else ParamsText(r, ps[..|ps| - 1]) + r.varDec(ps[|ps| - 1]) + ","
  }

  /** The first line of a base class's method. */
  function MethodHeader(r: Renderer, c: ClassName, md: MethodDef): string
  {
    "var " + c + "_" + md.name + " = function(" + ParamsText(r, md.params) + "self) {"
  }

  /** The single line of a derived class's method. */
  function ChildMethodText(r: Renderer, c: ClassName, md: MethodDef): string
  {
    "var " + c + "_" + md.name + " = function(" + ParamsText(r, md.params) + "self) {\n\t" + r.stmtText(md.body) + "};"
  }

  function ChildMethodLines(r: Renderer, c: ClassName, ms: seq<MethodDef>): seq<string>
  {
    seq(|ms|, i requires 0 <= i < |ms| => ChildMethodText(r, c, ms[i]))
  }

  /** One method of a base class: header, body statements, "};". */
  ghost function ParentMethodEffect(r: Renderer, classes: Classes, g: Gen, c: ClassName, md: MethodDef): (res: Result<Gen>)
    requires MemoValid(classes, g.compmap)
    ensures res.Ok? ==> res.value.compmap == g.compmap && g.code <= res.value.code
  {
    var g1 :- StmtEffect(r, classes, Emitted(g, MethodHeader(r, c, md)), md.body);
    Ok(Emitted(g1, "};"))
  }

  lemma ChildMethodLinesStep(r: Renderer, c: ClassName, ms: seq<MethodDef>, k: nat)
    requires k < |ms|
    ensures ChildMethodLines(r, c, ms[..k + 1]) == ChildMethodLines(r, c, ms[..k]) + [ChildMethodText(r, c, ms[k])]
  {
    assert ms[..k + 1][..k] == ms[..k];
  }

  /** The methods of a base class, in order. */
  ghost function ParentMethodsEffect(r: Renderer, classes: Classes, g: Gen, c: ClassName, ms: seq<MethodDef>): (res: Result<Gen>)
    requires MemoValid(classes, g.compmap)
    ensures res.Ok? ==> res.value.compmap == g.compmap && g.code <= res.value.code
    decreases |ms|
  {
    if ms == [] then Ok(g)
    else
      var g1 :- ParentMethodEffect(r, classes, g, c, ms[0]);
      ParentMethodsEffect(r, classes, g1, c, ms[1..])
  }

  /** compileParentclass. */
  ghost function ParentEffect(r: Renderer, classes: Classes, g: Gen, cls: ClassDef): Result<Gen>
    requires MemoValid(classes, g.compmap)
  {
    var g1 :- ParentMethodsEffect(r, classes, g, cls.name, cls.methods);
    Ok(Gen(g1.code + [VTableLine(cls.name, BaseSlots(cls.name, cls.methods))],
           g1.objToClass,
           g1.compmap[cls.name := BaseTable(cls)]))
  }

  /** compileChildClass. */
  function ChildEffect(r: Renderer, g: Gen, cls: ClassDef): Result<Gen>
  {
    if cls.ext.None? then Err(NullSuperclass(cls.name))
    else if Parent(cls) !in g.compmap then Err(UnknownClass(Parent(cls)))
    else
      var t := ChildTable(g.compmap[Parent(cls)], cls);
      Ok(Gen(g.code + ChildMethodLines(r, cls.name, cls.methods) + [VTableLine(cls.name, t.vTable)],
             g.objToClass,
             g.compmap[cls.name := t]))
  }

  /** cls is the declaration the class table holds under its name. */
  ghost predicate Registered(classes: Classes, cls: ClassDef)
  {
    cls.name in classes && classes[cls.name] == cls
  }

  /** Storing the reference table of a class whose parent is already stored
      keeps the memo valid. */
  lemma MemoStore(classes: Classes, compmap: map<ClassName, VTable>, n: ClassName, t: VTable)
    requires MemoValid(classes, compmap)
    requires TableOf(classes, n) == Some(t)
    requires classes[n].ext.Some? ==> Parent(classes[n]) in compmap
    ensures MemoValid(classes, compmap[n := t])
  {
  }

  /** compileClass. */
  ghost function ClassEffect(r: Renderer, classes: Classes, g: Gen, cls: ClassDef): (res: Result<Gen>)
    requires MemoValid(classes, g.compmap) && Registered(classes, cls)
    ensures res.Ok? ==>
      && MemoValid(classes, res.value.compmap)
      && res.value.compmap.Keys == g.compmap.Keys + Lineage(classes, cls.name)
      && g.code <= res.value.code
    decreases Rank(classes, cls.name)
  {
    if cls.ext.None? && cls.name !in g.compmap then
      var res := ParentEffect(r, classes, g, cls);
      if res.Err? then res
      else
        BaseStored(r, classes, g, cls);
        res
    else if cls.ext.None? then Err(NullSuperclass(cls.name))
    else
      var p := Parent(cls);
      RankParent(classes, cls.name);
      var pre := if p in g.compmap then Ok(g)
                 else if p !in classes then Err(UnknownClass(p))
                 else ClassEffect(r, classes, g, classes[p]);
      if pre.Err? then Err(pre.error)
      else
        DerivedStored(r, classes, g, pre.value, cls);
        ChildEffect(r, pre.value, cls)
  }

  /** Compiling a derived class once its lineage above it is stored (pre)
      stores its reference table and only appends code. */
  lemma DerivedStored(r: Renderer, classes: Classes, g: Gen, pre: Gen, cls: ClassDef)
    requires MemoValid(classes, g.compmap) && Registered(classes, cls) && cls.ext.Some?
    requires MemoValid(classes, pre.compmap) && Parent(cls) in pre.compmap
    requires pre == g || pre.compmap.Keys == g.compmap.Keys + Lineage(classes, Parent(cls))
    requires g.code <= pre.code
    ensures ChildEffect(r, pre, cls).Ok?
    ensures var h := ChildEffect(r, pre, cls).value;
      && MemoValid(classes, h.compmap)
      && h.compmap.Keys == g.compmap.Keys + Lineage(classes, cls.name)
      && g.code <= h.code
  {
    LineageCompiled(classes, pre.compmap, Parent(cls));
    ChildStored(classes, pre.compmap, cls);
  }

  /** Compiling a base class stores its reference table, which is its whole
      lineage, and only appends code. */
  lemma BaseStored(r: Renderer, classes: Classes, g: Gen, cls: ClassDef)
    requires MemoValid(classes, g.compmap) && Registered(classes, cls) && cls.ext.None?
    requires ParentEffect(r, classes, g, cls).Ok?
    ensures var h := ParentEffect(r, classes, g, cls).value;
      && MemoValid(classes, h.compmap)
      && h.compmap.Keys == g.compmap.Keys + Lineage(classes, cls.name)
      && g.code <= h.code
  {
    MemoStore(classes, g.compmap, cls.name, BaseTable(cls));
  }

  /** Storing the table of a derived class whose parent is stored keeps the
      memo valid; the class's lineage is itself and its parent's. */
  lemma ChildStored(classes: Classes, compmap: map<ClassName, VTable>, cls: ClassDef)
    requires MemoValid(classes, compmap) && Registered(classes, cls)
    requires cls.ext.Some? && Parent(cls) in compmap
    ensures MemoValid(classes, compmap[cls.name := ChildTable(compmap[Parent(cls)], cls)])
    ensures Lineage(classes, cls.name) == {cls.name} + Lineage(classes, Parent(cls))
  {
    var p := Parent(cls);
    assert TableOf(classes, p) == Some(compmap[p]);
    MemoStore(classes, compmap, cls.name, ChildTable(compmap[p], cls));
  }

  /** A stored table never changes: compiling a class (and, before it, its
      ancestors) leaves every table already in the memo as it was, and stores
      the reference table of every class on the chain. */
  lemma ClassEffectKeepsTables(r: Renderer, classes: Classes, g: Gen, cls: ClassDef)
    requires MemoValid(classes, g.compmap) && Registered(classes, cls)
    requires ClassEffect(r, classes, g, cls).Ok?
    ensures var h := ClassEffect(r, classes, g, cls).value;
      && (forall n :: n in g.compmap ==> h.compmap[n] == g.compmap[n])
      && (forall n :: n in Lineage(classes, cls.name) ==> Some(h.compmap[n]) == TableOf(classes, n))
  {
    var h := ClassEffect(r, classes, g, cls).value;
    forall n | n in g.compmap ensures h.compmap[n] == g.compmap[n] {
      assert TableOf(classes, n) == Some(g.compmap[n]);
      assert TableOf(classes, n) == Some(h.compmap[n]);
    }
  }

  /** compileProgram's second loop: every declaration compiled in order. */
  ghost function ClassesEffect(r: Renderer, classes: Classes, g: Gen, defs: seq<ClassDef>): (res: Result<Gen>)
    requires MemoValid(classes, g.compmap)
    requires forall i :: 0 <= i < |defs| ==> Registered(classes, defs[i])
    ensures res.Ok? ==>
      && MemoValid(classes, res.value.compmap)
      && g.compmap.Keys <= res.value.compmap.Keys
      && (forall i :: 0 <= i < |defs| ==> defs[i].name in res.value.compmap)
      && g.code <= res.value.code
    decreases |defs|
  {
    if defs == [] then Ok(g)
    else
      var g1 :- ClassEffect(r, classes, g, defs[0]);
      var rest := defs[1..];
      assert forall i :: 0 <= i < |rest| ==> rest[i] == defs[i + 1];
      var res := ClassesEffect(r, classes, g1, rest);
      assert res.Ok? ==> defs[0].name in res.value.compmap;
      res
  }

  /** A base class that is already in the memo fails to compile again:
      compileClass only guards the compilation of a base class that is not
      in the memo, and otherwise reads the missing superclass's name. */
  lemma BaseRecompileFails(r: Renderer, classes: Classes, g: Gen, cls: ClassDef)
    requires MemoValid(classes, g.compmap) && Registered(classes, cls)
    requires cls.ext.None? && cls.name in g.compmap
    ensures ClassEffect(r, classes, g, cls) == Err(NullSuperclass(cls.name))
  {
  }

  /** The loop over the declarations stops at the first failure and
      otherwise goes on from the state the first declaration leaves. */
  lemma ClassesEffectCons(r: Renderer, classes: Classes, g: Gen, defs: seq<ClassDef>)
    requires MemoValid(classes, g.compmap)
    requires forall i :: 0 <= i < |defs| ==> Registered(classes, defs[i])
    requires defs != []
    ensures var first := ClassEffect(r, classes, g, defs[0]);
      && (first.Err? ==> ClassesEffect(r, classes, g, defs).Err?)
      && (first.Ok? ==>
            && MemoValid(classes, first.value.compmap)
            && first.value.compmap.Keys == g.compmap.Keys + Lineage(classes, defs[0].name)
            && (forall i :: 0 <= i < |defs[1..]| ==> Registered(classes, defs[1..][i]))
            && ClassesEffect(r, classes, g, defs) == ClassesEffect(r, classes, first.value, defs[1..]))
  {
    assert forall i :: 0 <= i < |defs[1..]| ==> defs[1..][i] == defs[i + 1];
  }

  /** The loop over the declarations from position k on, as it sees the
      declaration at k: a failure ends the loop, a base class already in the
      memo fails, and otherwise the loop goes on from the state that class
      leaves, with its lineage added to the memo. */
  lemma NextClass(r: Renderer, classes: Classes, g: Gen, defs: seq<ClassDef>, k: nat) returns (first: Result<Gen>)
    requires MemoValid(classes, g.compmap)
    requires forall i :: 0 <= i < |defs| ==> Registered(classes, defs[i])
    requires k < |defs|
    ensures first.Err? ==> ClassesEffect(r, classes, g, defs[k..]).Err?
    ensures defs[k].ext.None? && defs[k].name in g.compmap ==> first.Err?
    ensures first.Ok? ==>
      && MemoValid(classes, first.value.compmap)
      && g.compmap.Keys + Lineage(classes, defs[k].name) <= first.value.compmap.Keys
      && ClassesEffect(r, classes, g, defs[k..]) == ClassesEffect(r, classes, first.value, defs[k + 1..])
  {
    var suffix := defs[k..];
    assert forall i :: 0 <= i < |suffix| ==> suffix[i] == defs[k + i];
    assert suffix[1..] == defs[k + 1..];
    ClassesEffectCons(r, classes, g, suffix);
    first := ClassEffect(r, classes, g, defs[k]);
    if defs[k].ext.None? && defs[k].name in g.compmap {
      BaseRecompileFails(r, classes, g, defs[k]);
    }
  }

  /** Once a base class is in the memo, a later declaration of it makes the
      rest of the loop fail. */
  lemma {:induction false} BaseAlreadyCompiledFails(r: Renderer, classes: Classes, g: Gen, defs: seq<ClassDef>, k: nat, j: nat)
    requires MemoValid(classes, g.compmap)
    requires forall i :: 0 <= i < |defs| ==> Registered(classes, defs[i])
    requires k <= j < |defs| && defs[j].ext.None? && defs[j].name in g.compmap
    ensures ClassesEffect(r, classes, g, defs[k..]).Err?
    decreases j - k
  {
    var first := NextClass(r, classes, g, defs, k);
    if k < j && first.Ok? {
      BaseAlreadyCompiledFails(r, classes, first.value, defs, k + 1, j);
    }
  }

  /** The loop from position k on fails when a class at i is declared before
      the root base class of its chain at j. */
  lemma {:induction false} RootAfterDescendantFails(r: Renderer, classes: Classes, g: Gen, defs: seq<ClassDef>, k: nat, i: nat, j: nat)
    requires MemoValid(classes, g.compmap)
    requires forall n :: 0 <= n < |defs| ==> Registered(classes, defs[n])
    requires k <= i < j < |defs|
    requires defs[j].ext.None? && defs[j].name in Lineage(classes, defs[i].name)
    ensures ClassesEffect(r, classes, g, defs[k..]).Err?
    decreases i - k
  {
    var first := NextClass(r, classes, g, defs, k);
    if first.Ok? {
      if i == k {
        BaseAlreadyCompiledFails(r, classes, first.value, defs, k + 1, j);
      } else {
        RootAfterDescendantFails(r, classes, first.value, defs, k + 1, i, j);
      }
    }
  }

  /** Declaration order matters: when a class is declared before the root
      base class (the one with no superclass) of its chain, compiling it
      compiles that base class on demand, and the base class's own
      declaration then fails with NullSuperclass. No list of declarations
      with a class before the root of its chain compiles. */
  lemma DerivedBeforeBaseFails(r: Renderer, classes: Classes, g: Gen, defs: seq<ClassDef>, i: nat, j: nat)
    requires MemoValid(classes, g.compmap)
    requires forall k :: 0 <= k < |defs| ==> Registered(classes, defs[k])
    requires i < j < |defs|
    requires defs[j].ext.None? && defs[j].name in Lineage(classes, defs[i].name)
    ensures ClassesEffect(r, classes, g, defs).Err?
  {
    RootAfterDescendantFails(r, classes, g, defs, 0, i, j);
    assert defs[0..] == defs;
  }

  /** compileProgram on a generator with no classes yet: register the
      declarations, compile each, then compile the program's statement.
      Distinct class names and an acyclic inheritance graph are what the type
      checker guarantees. */
  ghost function ProgramEffect(r: Renderer, prog: Program, code: seq<string>, objToClass: map<string, ClassName>): Result<Gen>
    requires UniqueNames(prog.classDefs) && Acyclic(Register(map[], prog.classDefs))
  {
    var classes := Register(map[], prog.classDefs);
    RegisterKeyed(map[], prog.classDefs);
    RegisterLookup(map[], prog.classDefs);
    var g1 :- ClassesEffect(r, classes, Gen(code, objToClass, map[]), prog.classDefs);
    StmtEffect(r, classes, g1, prog.statement)
  }

  /** After a program compiles, every declared class has its reference table
      in the memo, the memo agrees with the class table, and the code emitted
      extends the code there was. */
  lemma ProgramCompilesAll(r: Renderer, prog: Program, code: seq<string>, objToClass: map<string, ClassName>)
    requires UniqueNames(prog.classDefs) && Acyclic(Register(map[], prog.classDefs))
    requires ProgramEffect(r, prog, code, objToClass).Ok?
    ensures var classes := Register(map[], prog.classDefs);
      var h := ProgramEffect(r, prog, code, objToClass).value;
      && MemoValid(classes, h.compmap)
      && code <= h.code
      && (forall i :: 0 <= i < |prog.classDefs| ==>
            var n := prog.classDefs[i].name;
            n in h.compmap && TableOf(classes, n) == Some(h.compmap[n]))
  {
    var classes := Register(map[], prog.classDefs);
    RegisterKeyed(map[], prog.classDefs);
    RegisterLookup(map[], prog.classDefs);
    var g1 := ClassesEffect(r, classes, Gen(code, objToClass, map[]), prog.classDefs).value;
    var h := ProgramEffect(r, prog, code, objToClass).value;
    assert h.compmap == g1.compmap;
  }
}
