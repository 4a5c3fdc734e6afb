/** What compiling a statement or an expression does to the generator's
    state: the lines it appends, the variable bindings it records, and the
    failures it raises. The generator's methods are proved against these
    definitions.

    A call `v.m(a1, ..., an)` is lowered to `v.vtable[k](a1, ..., an, v);`
    where k is the offset of m in the table of the class v is bound to;
    CallDispatch shows that this slot holds the most derived implementation
    of m along that class's chain. */
module Lowering {
  import opened Ast
  import opened Text
  import opened VTables
  import opened ClassTable
  import opened Flattening

  /** The parts of the generator's state that compiling changes: the emitted
      lines (Code), the variable-to-class bindings (objToClass) and the memo
      of compiled tables (compmap). */
  datatype Gen = Gen(code: seq<string>, objToClass: map<string, ClassName>, compmap: map<ClassName, VTable>)

  function Emitted(g: Gen, line: string): Gen
  {
    g.(code := g.code + [line])
  }

  /** A method that reports out has done what res describes: on success it
      passed and now is the resulting state; on failure it failed with the
      same error (the source aborts, so the state it leaves is not used). */
  predicate Reached(res: Result<Gen>, out: Outcome, now: Gen)
  {
    match res
    case Ok(g) => out == Pass && now == g
    case Err(e) => out == Fail(e)
  }

  // ---------------------------------------------------------------------------
  // Calls

  /** vt.offsets.get(m) for the table of the class v is bound to. An unbound
      variable, a class with no table and a method with no offset are each a
      null dereference. */
  function OffsetOf(g: Gen, v: string, m: MethodName): Result<nat>
  {
    if v !in g.objToClass then Err(UnboundReceiver(v))
    else
      var cn := g.objToClass[v];
      if cn !in g.compmap then Err(UnknownClass(cn))
      else if m !in g.compmap[cn].offsets then Err(UnknownMethodOnClass(cn, m))
      else Ok(g.compmap[cn].offsets[m])
  }

  /** The argument list of a call: each argument followed by ", ". */
  function ArgText(r: Renderer, args: seq<Exp>): string
  {
    if args == [] then "" else ArgText(r, args[..|args| - 1]) + Emit(r, args[|args| - 1]) + ", "
  }

  function CallText(r: Renderer, v: string, k: nat, args: seq<Exp>): string
  {
    v + "." + "vtable[" + NatToString(k) + "](" + ArgText(r, args) + v + ");"
  }

  /** The lowered text of the call e, shared by the three call sites. */
  function CallLine(r: Renderer, g: Gen, e: Exp): Result<string>
    requires e.VarMethodExp?
  {
    var k :- OffsetOf(g, e.receiver, e.methodName);
    Ok(CallText(r, e.receiver, k, e.args))
  }

  /** Lowered calls dispatch virtually. For a variable bound to a compiled
      class cn, the call of m is lowered exactly when some class on cn's chain
      declares m; the slot it indexes is labelled with the nearest such class,
      and that class's last declaration of m is what cn's table binds m to.
      Otherwise the lowering fails because cn has no offset for m. */
  lemma CallDispatch(classes: Classes, g: Gen, v: string, m: MethodName)
    requires MemoValid(classes, g.compmap) && NoUnderscore(classes)
    requires v in g.objToClass && g.objToClass[v] in g.compmap
    ensures var cn := g.objToClass[v];
      var t := g.compmap[cn];
      && (OffsetOf(g, v, m).Ok? <==> Owner(classes, cn, m).Some?)
      && (Owner(classes, cn, m).None? ==> OffsetOf(g, v, m) == Err(UnknownMethodOnClass(cn, m)))
      && (Owner(classes, cn, m).Some? ==>
            var o := Owner(classes, cn, m).value;
            && m in t.offsets
            && OffsetOf(g, v, m) == Ok(t.offsets[m])
            && t.offsets[m] < |t.vTable|
            && o in classes
            && m in Names(classes[o].methods)
            && t.vTable[t.offsets[m]] == Label(o, m)
            && m in t.methodMap
            && t.methodMap[m] == classes[o].methods[LastIndex(classes[o].methods, m)])
  {
    var cn := g.objToClass[v];
    var t := g.compmap[cn];
    assert TableOf(classes, cn) == Some(t);
    SlotOfOwner(classes, cn, t, m);
  }

  lemma SlotOfOwner(classes: Classes, cn: ClassName, t: VTable, m: MethodName)
    requires Acyclic(classes) && Keyed(classes) && NoUnderscore(classes)
    requires TableOf(classes, cn) == Some(t)
    ensures m in t.offsets <==> Owner(classes, cn, m).Some?
    ensures m in t.offsets ==>
      var o := Owner(classes, cn, m).value;
      && t.offsets[m] < |t.vTable|
      && o in classes
      && m in Names(classes[o].methods)
      && t.vTable[t.offsets[m]] == Label(o, m)
      && m in t.methodMap
      && t.methodMap[m] == classes[o].methods[LastIndex(classes[o].methods, m)]
  {
    TableOfResolves(classes, cn, m);
  }

  /** The argument fragments of a call, one per argument in order: its text
      followed by ", ". */
  function ArgPieces(r: Renderer, args: seq<Exp>): seq<string>
  {
    seq(|args|, i requires 0 <= i < |args| => Emit(r, args[i]) + ", ")
  }

  /** The argument list the call loop builds is the concatenation of the
      argument fragments, in order. */
  lemma {:induction false} ArgTextIsConcat(r: Renderer, args: seq<Exp>)
    ensures ArgText(r, args) == Concat(ArgPieces(r, args))
    decreases |args|
  {
    if args != [] {
      var k := |args| - 1;
      ArgTextIsConcat(r, args[..k]);
      assert ArgPieces(r, args)[..k] == ArgPieces(r, args[..k]);
    }
  }

  // ---------------------------------------------------------------------------
  // Expressions and simple statements

  /** compileExp: arithmetic, literals and `new` emit their text; a call is
      lowered; anything else emits nothing. */
  function ExpEffect(r: Renderer, g: Gen, e: Exp): (res: Result<Gen>)
    ensures res.Ok? ==>
      && res.value.compmap == g.compmap && res.value.objToClass == g.objToClass
      && g.code <= res.value.code && |res.value.code| <= |g.code| + 1
  {
    match e
    case BinopExp(_, _, _) => Ok(Emitted(g, Emit(r, e)))
    case NumberExp(_) => Ok(Emitted(g, Emit(r, e)))
    case ClassExp(_, _, _) => Ok(Emitted(g, Emit(r, e)))
    case BoolExp(_) => Ok(Emitted(g, Emit(r, e)))
    case VarMethodExp(_, _, _) =>
      var line :- CallLine(r, g, e);
      Ok(Emitted(g, line))
    case _ => Ok(g)
  }

  /** compilevarassign: `x = v.m(...)` declares x with the lowered call; any
      other assignment emits `x = e`. */
  function AssignEffect(r: Renderer, g: Gen, x: string, e: Exp): (res: Result<Gen>)
    ensures res.Ok? ==>
      && res.value.compmap == g.compmap && res.value.objToClass == g.objToClass
      && g.code <= res.value.code && |res.value.code| == |g.code| + 1
  {
    if e.VarMethodExp? then
      var line :- CallLine(r, g, e);
      Ok(Emitted(g, "var " + x + " = " + line))
    else Ok(Emitted(g, x + " = " + Emit(r, e)))
  }

  // ---------------------------------------------------------------------------
  // Instantiation

  /** The fragments of the flattened fields in the map's iteration order. */
  function FieldTexts(fields: Fields, order: seq<string>): seq<string>
  {
    seq(|order|, i requires 0 <= i < |order| => if order[i] in fields then fields[order[i]] else "")
  }

  /** The object literal bound to v: its vtable first, then the fields. */
  function ObjectLiteral(r: Renderer, v: string, cname: ClassName, fields: Fields): string
  {
    "var " + v + " = {\n\tvtable: " + cname + "_vtable" + Concat(FieldTexts(fields, r.fieldOrder(fields))) + "\n}"
  }

  /** compilevarDecAssign. `T v = new C(args)` binds v to the class named by
      the declared type T (not C), and emits the literal built from T's table
      and T's constructor chain; `T v = w.m(...)` declares v with the lowered
      call; any other initializer emits `var v = e`. */
  ghost function VarDecEffect(r: Renderer, classes: Classes, g: Gen, d: VarDec, e: Exp): (res: Result<Gen>)
    requires MemoValid(classes, g.compmap)
    ensures res.Ok? ==>
      && res.value.compmap == g.compmap
      && g.code <= res.value.code && |res.value.code| == |g.code| + 1
  {
    if d.typ.ClassType? && e.ClassExp? then
      var cname := r.typ(d.typ);
      var bound := g.(objToClass := g.objToClass[d.name := cname]);
      if cname !in g.compmap then Err(UnknownClass(cname))
      else
        MemoEntrant(classes, g.compmap, cname);
        var fields :- Flatten(r, classes, g.compmap, g.compmap[cname], map[], e.args);
        Ok(Emitted(bound, ObjectLiteral(r, d.name, cname, fields)))
    else if e.VarMethodExp? then
      var line :- CallLine(r, g, e);
      Ok(Emitted(g, "var " + d.name + " = " + line))
    else Ok(Emitted(g, "var " + d.name + " = " + Emit(r, e)))
  }

  /** Instantiation binds the variable to the declared type: the class named
      in `new` plays no part in the result, which binds v to T's name, emits
      one line, and leaves every other binding and the memo unchanged. */
  lemma InstantiationUsesDeclaredType(r: Renderer, classes: Classes, g: Gen, d: VarDec,
                                      c1: ClassName, ta1: seq<Type>, c2: ClassName, ta2: seq<Type>, args: seq<Exp>)
    requires MemoValid(classes, g.compmap)
    requires d.typ.ClassType?
    ensures VarDecEffect(r, classes, g, d, ClassExp(c1, ta1, args)) == VarDecEffect(r, classes, g, d, ClassExp(c2, ta2, args))
    ensures var res := VarDecEffect(r, classes, g, d, ClassExp(c1, ta1, args));
      && (r.typ(d.typ) !in g.compmap ==> res == Err(UnknownClass(r.typ(d.typ))))
      && (res.Ok? ==>
            && res.value.objToClass == g.objToClass[d.name := r.typ(d.typ)]
            && res.value.compmap == g.compmap
            && |res.value.code| == |g.code| + 1
            && res.value.code[..|g.code|] == g.code)
  {
  }

  /** A sequence without repetitions has as many distinct elements as it
      has elements. */
  lemma {:induction false} DistinctCard(order: seq<string>)
    requires forall i, j :: 0 <= i < j < |order| ==> order[i] != order[j]
    ensures |set k | k in order| == |order|
    decreases |order|
  {
    if order != [] {
      var n := |order| - 1;
      var front := order[..n];
      DistinctCard(front);
      assert (set k | k in order) == (set k | k in front) + {order[n]};
      assert order[n] !in (set k | k in front);
    }
  }

  /** When the iteration order lists every field once, the literal carries
      one fragment per field: the i-th fragment is the i-th listed field's,
      every field's fragment is in the literal at exactly one position, and
      there are as many fragments as fields. */
  lemma FieldTextsExact(fields: Fields, order: seq<string>)
    requires ListsKeys(fields, order)
    ensures var ts := FieldTexts(fields, order);
      && |ts| == |fields|
      && (forall i :: 0 <= i < |ts| ==> order[i] in fields && ts[i] == fields[order[i]])
      && (forall f :: f in fields ==>
            exists i :: 0 <= i < |ts| && order[i] == f && ts[i] == fields[f] &&
              forall j :: 0 <= j < |ts| && j != i ==> order[j] != f)
  {
    DistinctCard(order);
    assert (set k | k in order) == fields.Keys;
    var ts := FieldTexts(fields, order);
    forall f | f in fields
      ensures exists i :: 0 <= i < |ts| && order[i] == f && ts[i] == fields[f] &&
                forall j :: 0 <= j < |ts| && j != i ==> order[j] != f
    {
      var i :| 0 <= i < |order| && order[i] == f;
      assert ts[i] == fields[f];
    }
  }

  /** ts, the fragments listed in the order order, are those of the object
      the writes ws build from an empty map: one per field ws writes, each
      field once, each holding the field's last write. */
  ghost predicate ExactFragments(ws: seq<Write>, order: seq<string>, ts: seq<string>)
  {
    var fields := Apply(map[], ws);
    && |ts| == |order| == |fields|
    && (forall f :: f in fields <==> exists j :: 0 <= j < |ws| && ws[j].0 == f)
    && (forall i :: 0 <= i < |ts| ==> exists j: nat :: LastWriteAt(ws, order[i], j) && ts[i] == ws[j].1)
    && (forall i, k :: 0 <= i < k < |ts| ==> order[i] != order[k])
  }

  /** The fragments of an object, in iteration order: one per field the
      constructor chain writes, each field once, each holding the field's last
      write. */
  lemma WrittenFieldTexts(r: Renderer, classes: Classes, compmap: map<ClassName, VTable>,
                          vt: VTable, actual: seq<Exp>)
    requires Entrant(classes, compmap, vt) && FieldOrderSound(r)
    requires Writes(r, classes, compmap, vt, actual).Ok?
    ensures var ws := Writes(r, classes, compmap, vt, actual).value;
      var fields := Apply(map[], ws);
      ExactFragments(ws, r.fieldOrder(fields), FieldTexts(fields, r.fieldOrder(fields)))
  {
    var ws := Writes(r, classes, compmap, vt, actual).value;
    var fields := Apply(map[], ws);
    var order := r.fieldOrder(fields);
    assert ListsKeys(fields, order);
    FieldTextsExact(fields, order);
    var ts := FieldTexts(fields, order);
    forall f ensures f in fields <==> exists j :: 0 <= j < |ws| && ws[j].0 == f {
      FlattenFresh(r, classes, compmap, vt, actual, f);
    }
    forall i | 0 <= i < |ts| ensures exists j: nat :: LastWriteAt(ws, order[i], j) && ts[i] == ws[j].1 {
      var f := order[i];
      FlattenFresh(r, classes, compmap, vt, actual, f);
      var j0 :| 0 <= j0 < |ws| && ws[j0].0 == f;
      var j := LastWriteOf(ws, f, j0);
      assert ts[i] == ws[j].1;
    }
  }

  /** The literal `T v = new C(args)` emits: after the vtable of T come the
      fragments of exactly the fields the constructor chain of T writes, each
      once, holding its last write, in the map's iteration order. */
  lemma InstantiationLiteral(r: Renderer, classes: Classes, g: Gen, d: VarDec, e: Exp)
    requires MemoValid(classes, g.compmap) && FieldOrderSound(r)
    requires d.typ.ClassType? && e.ClassExp?
    requires VarDecEffect(r, classes, g, d, e).Ok?
    ensures var cname := r.typ(d.typ);
      && cname in g.compmap
      && Entrant(classes, g.compmap, g.compmap[cname])
      && Writes(r, classes, g.compmap, g.compmap[cname], e.args).Ok?
      && var ws := Writes(r, classes, g.compmap, g.compmap[cname], e.args).value;
         var fields := Apply(map[], ws);
         var ts := FieldTexts(fields, r.fieldOrder(fields));
         && VarDecEffect(r, classes, g, d, e).value.code
              == g.code + ["var " + d.name + " = {\n\tvtable: " + cname + "_vtable" + Concat(ts) + "\n}"]
         && ExactFragments(ws, r.fieldOrder(fields), ts)
  {
    var cname := r.typ(d.typ);
    InstantiationLine(r, classes, g, d, e);
    WrittenFieldTexts(r, classes, g.compmap, g.compmap[cname], e.args);
  }

  /** The one line `T v = new C(args)` emits is the literal of the object
      that the writes of T's constructor chain build. */
  lemma InstantiationLine(r: Renderer, classes: Classes, g: Gen, d: VarDec, e: Exp)
    requires MemoValid(classes, g.compmap)
    requires d.typ.ClassType? && e.ClassExp?
    requires VarDecEffect(r, classes, g, d, e).Ok?
    ensures var cname := r.typ(d.typ);
      && cname in g.compmap
      && Entrant(classes, g.compmap, g.compmap[cname])
      && Writes(r, classes, g.compmap, g.compmap[cname], e.args).Ok?
      && VarDecEffect(r, classes, g, d, e).value.code
           == g.code + [ObjectLiteral(r, d.name, cname, Apply(map[], Writes(r, classes, g.compmap, g.compmap[cname], e.args).value))]
  {
    var cname := r.typ(d.typ);
    MemoEntrant(classes, g.compmap, cname);
    FlattenIsApply(r, classes, g.compmap, g.compmap[cname], map[], e.args);
  }

  // ---------------------------------------------------------------------------
  // Statements

  /** compileStatement. */
  ghost function StmtEffect(r: Renderer, classes: Classes, g: Gen, s: Statement): (res: Result<Gen>)
    requires MemoValid(classes, g.compmap)
    ensures res.Ok? ==> res.value.compmap == g.compmap && g.code <= res.value.code
    decreases s, 1
  {
    match s
    case IfStmt(_, _, _) => Ok(Emitted(g, r.stmtEmit(s)))
    case WhileStmt(_, _) => Ok(Emitted(g, r.stmtEmit(s)))
    case Block(ss) => BlockEffect(r, classes, g, ss)
    case BreakStmt => Ok(Emitted(g, r.stmtText(s) + ";"))
    case PrintStmt(e) => Ok(Emitted(g, "console.log(" + Emit(r, e) + ");"))
    case ReturnExpStmt(e) => Ok(Emitted(g, "return " + Emit(r, e) + ";"))
    case ReturnVoidStmt => Ok(Emitted(g, "return;"))
    case VarAssignment(x, e) => AssignEffect(r, g, x, e)
    case VarDecAssignment(d, e) => VarDecEffect(r, classes, g, d, e)
    case SuperStmt(_) => Err(NotAnExpression)
    case ExpStmt(e) => ExpEffect(r, g, e)
  }

  /** The statements of a block, in order, stopping at the first failure. */
  ghost function BlockEffect(r: Renderer, classes: Classes, g: Gen, ss: seq<Statement>): (res: Result<Gen>)
    requires MemoValid(classes, g.compmap)
    ensures res.Ok? ==> res.value.compmap == g.compmap && g.code <= res.value.code
    decreases ss, 0
  {
    if ss == [] then Ok(g)
    else
      var g' :- StmtEffect(r, classes, g, ss[0]);
      BlockEffect(r, classes, g', ss[1..])
  }

  /** Splitting a block: running ss then ts is running ss + ts. */
  lemma {:induction false} BlockEffectConcat(r: Renderer, classes: Classes, g: Gen, ss: seq<Statement>, ts: seq<Statement>)
    requires MemoValid(classes, g.compmap)
    ensures BlockEffect(r, classes, g, ss + ts) ==
      match BlockEffect(r, classes, g, ss)
      case Ok(g') => BlockEffect(r, classes, g', ts)
      case Err(e) => Err(e)
    decreases |ss|
  {
    if ss == [] {
      assert ss + ts == ts;
    } else {
      assert (ss + ts)[0] == ss[0];
      assert (ss + ts)[1..] == ss[1..] + ts;
      var first := StmtEffect(r, classes, g, ss[0]);
      if first.Ok? {
        BlockEffectConcat(r, classes, first.value, ss[1..], ts);
      }
    }
  }
}
